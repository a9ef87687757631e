// What the keeper's checks accept and what each of its steps does to an order, field by field
// (apps/x402-keeper/src/workflow.ts, state.ts).
module KeeperOutcomes {
  import opened Options
  import opened Permits
  import opened Orders
  import opened KeeperWorkflow
  import opened KeeperSafety
  import opened KeeperTheorems
  import opened KeeperUniqueness

  // ---- the two checks ----

  // The receipt shows the registration of this order's name to its recipient, with its permit, by the keeper.
  predicate RegistersOrder(keeper: Address, o: Order, proof: Proof) {
    && proof.chainId == 5042 && proof.transactionTo == o.quote.controller && proof.emitter == o.quote.controller
    && proof.decodedFunction == "register" && proof.decodedLabel == o.quote.label_
    && o.progress.permitId == Some(proof.decodedPermitId) && o.progress.permitId == Some(proof.permitConsumedId)
    && proof.decodedReleaseId == o.quote.releaseId && proof.decodedNamehash == o.quote.namehash
    && proof.decodedRecipient == o.quote.recipient && proof.registeredOwner == o.quote.recipient
    && proof.decodedExecutor == keeper && proof.decodedAmount == o.quote.amount
    && proof.registeredLabelHash == o.quote.labelHash
    && proof.registrationEvents == 1 && proof.permitConsumedEvents == 1
  }

  lemma ReceiptProofIsExact(keeper: Address, o: Order, proof: Proof)
    ensures var r := AssertReceiptProof(keeper, o, proof);
            && (r.Ok? <==> RegistersOrder(keeper, o, proof) && proof.tokenId == o.quote.labelHash)
            && (r.Ok? ==> r.value == o.quote.labelHash)
            && (r == Err(ProofMismatch) <==> !RegistersOrder(keeper, o, proof))
  {
  }

  // The permit is for this order's name, recipient, price and duration, paid and executed by the keeper.
  predicate PermitsOrder(p: Policy, permitId: Hash, permit: AgentPermit, namehash: Hash, q: Quote, years: nat) {
    && permit.chainId == 5042 && permit.permitId == permitId && permit.controller == q.controller
    && permit.releaseId == q.releaseId && permit.profileHash == p.profileHash && permit.labelHash == q.labelHash
    && permit.namehash == namehash && permit.recipient == q.recipient && permit.payer == p.keeper
    && permit.executor == p.keeper && permit.durationYears == years && permit.settlementAsset == p.settlementAsset
    && permit.amount == q.amount && permit.validAfter <= permit.validUntil
  }

  lemma PermitCheckIsExact(p: Policy, permitId: Hash, permit: AgentPermit, namehash: Hash, q: Quote, years: nat)
    ensures PermitFits(p, permitId, permit, namehash, q, years) <==>
            PermitsOrder(p, permitId, permit, namehash, q, years)
  {
  }

  // ---- the table ----

  // The way of an order that succeeds, one state after the other.
  const HAPPY_WAY := [Quoted, PermitIssued, PaymentAuthorized, RegistrationSubmitted, RegistrationConfirmed,
                      PaymentSettled]

  // An order goes one state on, or back its money from the authorized payment on, or to review; refunded and
  // reviewed orders stay.
  lemma TableIsExact(from: OrderState, to: OrderState)
    ensures to in AllowedTransitions(from) <==>
            || (exists k | 0 <= k < 5 :: HAPPY_WAY[k] == from && HAPPY_WAY[k + 1] == to)
            || ((exists k | 2 <= k < 6 :: HAPPY_WAY[k] == from) && to == RefundPending)
            || (from == RefundPending && to == Refunded)
            || (from != Refunded && from != ManualReview && to == ManualReview)
  {
    assert forall k | 0 <= k < 5 :: HAPPY_WAY[k + 1] in AllowedTransitions(HAPPY_WAY[k]);
    assert HAPPY_WAY[0] == Quoted && HAPPY_WAY[1] == PermitIssued && HAPPY_WAY[2] == PaymentAuthorized
           && HAPPY_WAY[3] == RegistrationSubmitted && HAPPY_WAY[4] == RegistrationConfirmed
           && HAPPY_WAY[5] == PaymentSettled;
    if to in AllowedTransitions(from) && to !in {RefundPending, Refunded, ManualReview} {
      var k := Rank(from);
      assert HAPPY_WAY[k] == from && HAPPY_WAY[k + 1] == to;
    }
    if to in AllowedTransitions(from) && to == RefundPending {
      var k := Rank(from);
      assert 2 <= k < 6 && HAPPY_WAY[k] == from;
    }
  }

  // ---- what money and names rest on ----

  lemma ReachableStays(p: Policy, s: State)
    requires Injective(p) && Reachable(p, s)
    ensures Inv(p, s)
  {
    var states, events :| IsRun(p, states, events) && states[|events|] == s;
    RunStays(p, states, events, |events|);
  }

  // A settlement is asked for only after a receipt for the recorded transaction showed this very name registered
  // to this very recipient, with the order's permit and by the keeper.
  lemma SettlementsRestOnRegistration(p: Policy, s: State, id: OrderId, payment: Payload) returns (proof: Proof)
    requires Injective(p) && Reachable(p, s) && Settlement(id, payment) in s.calls
    ensures id in s.memory.orders
    ensures var o := s.memory.orders[id];
            && o.progress.registrationTxHash.Some?
            && (o.progress.registrationTxHash.value, Success(proof)) in s.receipts
            && RegistersOrder(p.keeper, o, proof) && proof.tokenId == o.quote.labelHash
            && proof.registeredLabelHash == o.quote.labelHash && proof.registeredOwner == o.quote.recipient
  {
    ReachableStays(p, s);
    assert CallBacked(s, Settlement(id, payment)) && StoredWell(p, s, id);
    var o := s.memory.orders[id];
    proof :| WasRead(s.receipts, o, Success(proof)) && Proves(p.keeper, o, proof) && proof.tokenId == o.quote.labelHash;
    ReceiptProofIsExact(p.keeper, o, proof);
  }

  // A registration is submitted only with a permit for this very order.
  lemma SubmissionsArePermitted(p: Policy, s: State, id: OrderId, permit: AgentPermit, signature: Hash)
    requires Injective(p) && Reachable(p, s) && Submission(id, permit, signature) in s.calls
    ensures id in s.memory.orders && id in s.durations
    ensures var o := s.memory.orders[id];
            && o.progress.permitId == Some(permit.permitId) && o.progress.permitSignature == Some(signature)
            && PermitsOrder(p, permit.permitId, permit, o.quote.namehash, o.quote, s.durations[id])
            && permit.labelHash == o.quote.labelHash && permit.recipient == o.quote.recipient
  {
    ReachableStays(p, s);
    assert CallBacked(s, Submission(id, permit, signature)) && StoredWell(p, s, id);
    var o := s.memory.orders[id];
    PermitCheckIsExact(p, o.progress.permitId.value, permit, o.quote.namehash, o.quote, s.durations[id]);
  }

  // ---- what a step does ----

  ghost predicate Leads(p: Policy, s: State, e: Event, s': State) {
    Injective(p) && Reachable(p, s) && Step(p, s, e, s')
  }

  // Nothing that is stored changes, and no call is made.
  predicate StoresNothing(s: State, s': State) {
    s'.memory == s.memory && s'.durations == s.durations && s'.calls == s.calls && s'.accepted == s.accepted
  }

  predicate JustEnds(s: State, s': State, task: TaskId) {
    StoresNothing(s, s') && s'.tasks == s.tasks - {task}
  }

  predicate GoesOn(s: State, s': State, task: TaskId, next: Task) {
    StoresNothing(s, s') && s'.tasks == s.tasks[task := next]
  }

  // The task ends, and its order is this one unless it has moved on since the task read it.
  predicate Moves(s: State, s': State, task: TaskId, o: Order, next: Order) {
    && s'.tasks == s.tasks - {task} && s'.calls == s.calls && s'.accepted == s.accepted && s'.durations == s.durations
    && o.quote.id in s.memory.orders && s'.memory.byIdempotency == s.memory.byIdempotency
    && if s.memory.orders[o.quote.id] == o then s'.memory.orders == s.memory.orders[o.quote.id := next]
       else s'.memory == s.memory
  }

  // The order that a task holds is a past value of the stored one, in the state the task needs.
  lemma Holds(p: Policy, s: State, task: TaskId)
    requires Injective(p) && Reachable(p, s) && task in s.tasks
    ensures var o := s.tasks[task].order;
            && o.quote.id in s.memory.orders && o.state == AwaitedState(s.tasks[task])
            && (s.memory.orders[o.quote.id] == o || s.memory.orders[o.quote.id].state != o.state)
  {
    ReachableStays(p, s);
    TaskReads(p, s, task);
    var o := s.tasks[task].order;
    if s.memory.orders[o.quote.id].state == o.state { NoReturn(p, s, o); }
  }

  lemma PermitDecides(p: Policy, s: State, s': State, task: TaskId, permitId: Hash, permit: AgentPermit,
                      signature: Hash)
    requires Leads(p, s, PermitSigned(task, permitId, permit, signature), s')
    ensures task in s.tasks && s.tasks[task].AwaitingPermit?
    ensures var t := s.tasks[task];
            var o := t.order;
            if !PermitsOrder(p, permitId, permit, t.namehash, o.quote, t.durationYears) then JustEnds(s, s', task)
            else Moves(s, s', task, o, Order(o.quote, PermitIssued, o.progress.(
                         permitId := Some(permitId), permitPayload := Some(permit),
                         permitSignature := Some(signature))))
  {
    Holds(p, s, task);
    var t := s.tasks[task];
    PermitCheckIsExact(p, permitId, permit, t.namehash, t.order.quote, t.durationYears);
  }

  lemma SentDecides(p: Policy, s: State, s': State, task: TaskId, txHash: Hash)
    requires Leads(p, s, RegistrationSent(task, txHash), s')
    ensures task in s.tasks
    ensures var o := s.tasks[task].order;
            Moves(s, s', task, o, Order(o.quote, RegistrationSubmitted,
                                        o.progress.(registrationTxHash := Some(txHash))))
  {
    Holds(p, s, task);
  }

  lemma SubmittedHasTransaction(p: Policy, s: State, task: TaskId)
    requires Injective(p) && Reachable(p, s) && task in s.tasks && s.tasks[task].Receipting?
    ensures s.tasks[task].order.progress.registrationTxHash.Some?
  {
    ReachableStays(p, s);
    TaskReads(p, s, task);
    HasTransaction(p, s.receipts, s.durations[s.tasks[task].order.quote.id], s.tasks[task].order);
  }

  // The receipt is recorded as an answer about the order's transaction.
  lemma ReceiptIsRecorded(p: Policy, s: State, s': State, task: TaskId, receipt: Receipt)
    requires Leads(p, s, ReceiptRead(task, receipt), s') && !receipt.Pending?
    ensures task in s.tasks && s.tasks[task].order.progress.registrationTxHash.Some?
    ensures s'.receipts == s.receipts + {(s.tasks[task].order.progress.registrationTxHash.value, receipt)}
  {
    SubmittedHasTransaction(p, s, task);
  }

  // The keeper's reading of a receipt: reverted means a refund, a proof of this registration confirms it, and
  // anything else goes to review.
  lemma ReceiptDecides(p: Policy, s: State, s': State, task: TaskId, receipt: Receipt)
    requires Leads(p, s, ReceiptRead(task, receipt), s')
    ensures task in s.tasks
    ensures var o := s.tasks[task].order;
            match receipt
            case Pending => JustEnds(s, s', task)
            case Reverted =>
              Moves(s, s', task, o, Order(o.quote, RefundPending,
                                          o.progress.(failureCode := Some("REGISTRATION_REVERTED"))))
            case Success(proof) =>
              Moves(s, s', task, o,
                    if RegistersOrder(p.keeper, o, proof) && proof.tokenId == o.quote.labelHash
                    then Order(o.quote, RegistrationConfirmed,
                               o.progress.(registrationTokenId := Some(o.quote.labelHash)))
                    else Order(o.quote, ManualReview, o.progress.(failureCode := Some("TOKEN_ID_NOT_PROVEN"))))
  {
    Holds(p, s, task);
    SubmittedHasTransaction(p, s, task);
    var o := s.tasks[task].order;
    if receipt.Success? { ReceiptProofIsExact(p.keeper, o, receipt.proof); }
  }

  lemma SettleDecides(p: Policy, s: State, s': State, task: TaskId, success: bool, transaction: Hash)
    requires Leads(p, s, SettleAnswered(task, success, transaction), s')
    ensures task in s.tasks
    ensures var o := s.tasks[task].order;
            Moves(s, s', task, o,
                  if success then Order(o.quote, PaymentSettled, o.progress.(settlementTxHash := Some(transaction)))
                  else Order(o.quote, ManualReview,
                             o.progress.(failureCode := Some("SETTLEMENT_FAILED_AFTER_REGISTRATION"))))
  {
    Holds(p, s, task);
  }

  // A refund without a transaction keeps the column as it was.
  lemma RefundDecides(p: Policy, s: State, s': State, task: TaskId, refunded: bool, refundTx: Option<Hash>)
    requires Leads(p, s, RefundAnswered(task, refunded, refundTx), s')
    ensures task in s.tasks
    ensures var o := s.tasks[task].order;
            if !refunded then JustEnds(s, s', task)
            else Moves(s, s', task, o, Order(o.quote, Refunded, o.progress.(
                         refundTxHash := if refundTx.Some? then refundTx else o.progress.refundTxHash)))
  {
    Holds(p, s, task);
  }

  // A verified payment is bound to its order, and the registration is submitted at once with the stored permit;
  // a rejected one, or one that comes after another, changes nothing.
  lemma VerifiedDecides(p: Policy, s: State, s': State, task: TaskId, valid: bool)
    requires Leads(p, s, PaymentVerified(task, valid), s')
    ensures task in s.tasks && s.tasks[task].Verifying?
    ensures var o, payment := s.tasks[task].order, s.tasks[task].payment;
            var next := Order(o.quote, PaymentAuthorized, o.progress.(
                                paymentIdentifier := Some(p.sha(payment)), paymentPayload := Some(payment)));
            && o.quote.id in s.memory.orders
            && if !valid || s.memory.orders[o.quote.id] != o then JustEnds(s, s', task)
               else
                 && o.progress.permitPayload.Some? && o.progress.permitSignature.Some?
                 && s'.memory == s.memory.(orders := s.memory.orders[o.quote.id := next])
                 && s'.tasks == s.tasks[task := Submitting(next)] && s'.durations == s.durations
                 && s'.accepted == s.accepted + {(o.quote.id, payment)}
                 && s'.calls == s.calls + {Submission(o.quote.id, o.progress.permitPayload.value,
                                                      o.progress.permitSignature.value)}
  {
    Holds(p, s, task);
    ReachableStays(p, s);
    TaskReads(p, s, task);
  }

  // ---- the three calls ----

  // create checks the duration and its quote before it stores anything, the other two calls check nothing.
  lemma CallsMayStart(p: Policy, s: State, task: TaskId, id: OrderId, key: string, identity: Identity,
                      recipient: Address, years: nat, amount: nat, payment: Payload)
    ensures Enabled(p, s, Event.Create(task, id, key, identity, recipient, years, amount)) <==>
            task !in s.tasks && id !in s.memory.orders && 0 < years < 11 && 0 < amount <= p.maxAmount
    ensures Enabled(p, s, Authorize(task, id, payment)) <==> task !in s.tasks
    ensures Enabled(p, s, Reconcile(task, id)) <==> task !in s.tasks
  {
  }

  // The terms and columns of a new order.
  predicate IsNewOrder(p: Policy, o: Order, id: OrderId, key: string, identity: Identity, recipient: Address,
                       years: nat, amount: nat)
  {
    && o.state == Quoted && o.progress == BLANK && o.quote.id == id && o.quote.idempotencyKey == key
    && o.quote.label_ == identity.label_ && o.quote.labelHash == identity.labelHash
    && o.quote.namehash == identity.namehash && o.quote.recipient == recipient && o.quote.controller == p.controller
    && o.quote.releaseId == p.releaseId && o.quote.amount == amount
    && o.quote.fingerprint == Fingerprint(p, identity, recipient, years, amount)
  }

  function Fingerprint(p: Policy, identity: Identity, recipient: Address, years: nat, amount: nat): Hash {
    p.digest(Terms(identity.labelHash, identity.namehash, recipient, years, p.controller, p.releaseId, amount))
  }

  // A new key gets a new order; a known one is answered by its stored order when the terms have one digest, and
  // is refused otherwise. A permit is asked for while the order is quoted.
  lemma CreateDecides(p: Policy, s: State, s': State, task: TaskId, id: OrderId, key: string, identity: Identity,
                      recipient: Address, years: nat, amount: nat)
    requires Leads(p, s, Event.Create(task, id, key, identity, recipient, years, amount), s')
    ensures 1 <= years <= 10 && 0 < amount <= p.maxAmount
    ensures if key !in s.memory.byIdempotency then
              && id in s'.memory.orders
              && IsNewOrder(p, s'.memory.orders[id], id, key, identity, recipient, years, amount)
              && s'.memory == Memory(s.memory.orders[id := s'.memory.orders[id]], s.memory.byIdempotency[key := id])
              && s'.durations == s.durations[id := years] && s'.calls == s.calls && s'.accepted == s.accepted
              && s'.tasks == s.tasks[task := AwaitingPermit(s'.memory.orders[id], identity.namehash, years)]
            else
              && s.memory.byIdempotency[key] in s.memory.orders
              && var known := s.memory.orders[s.memory.byIdempotency[key]];
                 if known.quote.fingerprint == Fingerprint(p, identity, recipient, years, amount)
                    && known.state == Quoted
                 then GoesOn(s, s', task, AwaitingPermit(known, identity.namehash, years))
                 else s' == s
  {
  }

  // authorize: a bound order takes its own payment only, and submits again while it is not submitted; a permitted
  // one has the payment verified; any other state refuses.
  lemma AuthorizeDecides(p: Policy, s: State, s': State, task: TaskId, id: OrderId, payment: Payload)
    requires Leads(p, s, Authorize(task, id, payment), s')
    ensures if id !in s.memory.orders then s' == s
            else
              var o := s.memory.orders[id];
              match o.state
              case PermitIssued => GoesOn(s, s', task, Verifying(o, payment))
              case PaymentAuthorized =>
                if o.progress.paymentIdentifier == Some(p.sha(payment))
                then Submits(s.(accepted := s.accepted + {(id, payment)}), s', task, o) else s' == s
              case RegistrationSubmitted => s' == Accepts(p, s, o, payment)
              case RegistrationConfirmed => s' == Accepts(p, s, o, payment)
              case PaymentSettled => s' == Accepts(p, s, o, payment)
              case _ => s' == s
  {
    ReachableStays(p, s);
    if id in s.memory.orders { assert StoredWell(p, s, id); }
  }

  // The stored permit of an order is submitted.
  predicate Submits(s: State, s': State, task: TaskId, o: Order) {
    && o.progress.permitPayload.Some? && o.progress.permitSignature.Some?
    && var call := Submission(o.quote.id, o.progress.permitPayload.value, o.progress.permitSignature.value);
       s' == s.(calls := s.calls + {call}, tasks := s.tasks[task := Submitting(o)])
  }

  function Accepts(p: Policy, s: State, o: Order, payment: Payload): State {
    if o.progress.paymentIdentifier == Some(p.sha(payment))
    then s.(accepted := s.accepted + {(o.quote.id, payment)}) else s
  }

  // reconcile: each waiting state asks for what it waits for, the others are left alone.
  lemma ReconcileDecides(p: Policy, s: State, s': State, task: TaskId, id: OrderId)
    requires Leads(p, s, Reconcile(task, id), s')
    ensures if id !in s.memory.orders then s' == s
            else
              var o := s.memory.orders[id];
              match o.state
              case PaymentAuthorized => Submits(s, s', task, o)
              case RegistrationSubmitted => GoesOn(s, s', task, Receipting(o))
              case RegistrationConfirmed =>
                && o.progress.paymentPayload.Some?
                && s' == s.(calls := s.calls + {Settlement(id, o.progress.paymentPayload.value)},
                            tasks := s.tasks[task := Settling(o)])
              case RefundPending =>
                s' == s.(calls := s.calls + {Refund(id)}, tasks := s.tasks[task := Refunding(o)])
              case _ => s' == s
  {
    ReachableStays(p, s);
    if id in s.memory.orders { assert StoredWell(p, s, id); }
  }
}
