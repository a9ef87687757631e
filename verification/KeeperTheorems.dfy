// What holds over every run of the keeper, in any interleaving of create, authorize and reconcile.
module KeeperTheorems {
  import opened Options
  import opened Permits
  import opened Orders
  import opened KeeperWorkflow
  import opened KeeperSafety

  ghost predicate IsRun(p: Policy, states: seq<State>, events: seq<Event>) {
    && |states| == |events| + 1
    && states[0] == INITIAL
    && forall i | 0 <= i < |events| :: Step(p, states[i], events[i], states[i + 1])
  }

  lemma {:induction false} RunStays(p: Policy, states: seq<State>, events: seq<Event>, i: nat)
    requires Injective(p) && IsRun(p, states, events) && i < |states|
    ensures Inv(p, states[i])
  {
    if i > 0 {
      RunStays(p, states, events, i - 1);
      StepKeepsInv(p, states[i - 1], events[i - 1], states[i]);
    }
  }

  // Every order is within the spend policy and carries exactly the fields its state needs, so the
  // missing-permit error and both non-null assertions never fire.
  lemma FieldsFollowState(p: Policy, states: seq<State>, events: seq<Event>, i: nat)
    requires Injective(p) && IsRun(p, states, events) && i < |states|
    ensures !states[i].faulted
    ensures forall id <- states[i].memory.orders ::
              id in states[i].durations
              && WithinPolicy(p, states[i].memory.orders[id].quote, states[i].durations[id])
              && Shape(p, states[i].receipts, states[i].durations[id], states[i].memory.orders[id])
  {
    RunStays(p, states, events, i);
    forall id <- states[i].memory.orders ensures StoredWell(p, states[i], id) {}
  }

  lemma LaterIsTransitive(a: Order, b: Order, c: Order)
    requires Later(a, b) && Later(b, c)
    ensures Later(a, c)
  {
  }

  // Along a run an order only moves forward: no field is cleared or written twice, no state comes back.
  lemma {:induction false} OrdersMoveForward(p: Policy, states: seq<State>, events: seq<Event>, i: nat, j: nat,
                                             id: OrderId)
    requires Injective(p) && IsRun(p, states, events) && i <= j < |states| && id in states[i].memory.orders
    ensures id in states[j].memory.orders && Later(states[i].memory.orders[id], states[j].memory.orders[id])
  {
    if i < j {
      OrdersMoveForward(p, states, events, i, j - 1, id);
      RunStays(p, states, events, j - 1);
      StepKeepsInv(p, states[j - 1], events[j - 1], states[j]);
      LaterIsTransitive(states[i].memory.orders[id], states[j - 1].memory.orders[id], states[j].memory.orders[id]);
    }
  }

  predicate IsTerminal(state: OrderState) {
    state in {PaymentSettled, Refunded, ManualReview}
  }

  // The table allows a settled order to be refunded, and anything to go to review; the workflow never does it.
  lemma TerminalStatesStay(p: Policy, states: seq<State>, events: seq<Event>, i: nat, j: nat, id: OrderId)
    requires Injective(p) && IsRun(p, states, events) && i <= j < |states|
    requires id in states[i].memory.orders && IsTerminal(states[i].memory.orders[id].state)
    ensures id in states[j].memory.orders && states[j].memory.orders[id] == states[i].memory.orders[id]
  {
    OrdersMoveForward(p, states, events, i, j, id);
  }

  lemma RevertedNeverSettles(p: Policy, receipts: set<(Hash, Receipt)>, receipts': set<(Hash, Receipt)>, years: nat,
                             years': nat,
                             a: Order, b: Order)
    requires Shape(p, receipts, years, a) && Shape(p, receipts', years', b) && Later(a, b)
    requires a.state in {RefundPending, Refunded}
    ensures b.state != PaymentSettled
  {
  }

  lemma SettledOrRefunded(p: Policy, states: seq<State>, events: seq<Event>, i: nat, j: nat, id: OrderId)
    requires Injective(p) && IsRun(p, states, events) && i < |states| && j < |states|
    requires id in states[i].memory.orders && states[i].memory.orders[id].state == PaymentSettled
    requires id in states[j].memory.orders
    ensures states[j].memory.orders[id].state !in {RefundPending, Refunded}
  {
    if i <= j {
      TerminalStatesStay(p, states, events, i, j, id);
    } else if states[j].memory.orders[id].state in {RefundPending, Refunded} {
      OrdersMoveForward(p, states, events, j, i, id);
      FieldsFollowState(p, states, events, i);
      FieldsFollowState(p, states, events, j);
      RevertedNeverSettles(p, states[j].receipts, states[i].receipts, states[j].durations[id], states[i].durations[id],
                           states[j].memory.orders[id], states[i].memory.orders[id]);
    }
  }

  // Two calls made for one order, at any times and however often repeated: never a settlement and a refund,
  // never two payments, never two permits.
  lemma MoneyMovesOneWay(p: Policy, states: seq<State>, events: seq<Event>, i: nat, a: ExternalCall, b: ExternalCall)
    requires Injective(p) && IsRun(p, states, events) && i < |states|
    requires a in states[i].calls && b in states[i].calls && a.id == b.id
    ensures !(a.Settlement? && b.Refund?)
    ensures a.Settlement? && b.Settlement? ==> a == b
    ensures a.Submission? && b.Submission? ==> a == b
  {
    RunStays(p, states, events, i);
    assert CallBacked(states[i], a) && CallBacked(states[i], b) && StoredWell(p, states[i], a.id);
  }

  // An order is bound to one payment: authorize turns away every other one, at any time.
  lemma OnePaymentIsAuthorized(p: Policy, states: seq<State>, events: seq<Event>, i: nat, id: OrderId, a: Payload,
                               b: Payload)
    requires Injective(p) && IsRun(p, states, events) && i < |states|
    requires (id, a) in states[i].accepted && (id, b) in states[i].accepted
    ensures p.sha(a) == p.sha(b)
    ensures id in states[i].memory.orders && states[i].memory.orders[id].progress.paymentIdentifier == Some(p.sha(a))
  {
    RunStays(p, states, events, i);
    assert IsBound(p, states[i], (id, a)) && IsBound(p, states[i], (id, b));
  }

  // A settlement is only ever asked for the payment the order is bound to, after a receipt for the recorded
  // transaction proved the registration of this very order.
  lemma SettlementsRestOnProof(p: Policy, states: seq<State>, events: seq<Event>, i: nat, id: OrderId, payment: Payload)
    requires Injective(p) && IsRun(p, states, events) && i < |states| && Settlement(id, payment) in states[i].calls
    ensures id in states[i].memory.orders
    ensures states[i].memory.orders[id].progress.paymentIdentifier == Some(p.sha(payment))
    ensures IsConfirmed(p, states[i].receipts, states[i].memory.orders[id])
  {
    RunStays(p, states, events, i);
    assert CallBacked(states[i], Settlement(id, payment)) && StoredWell(p, states[i], id);
  }

  // A refund is only ever asked for after the chain reported the recorded transaction reverted.
  lemma RefundsRestOnRevert(p: Policy, states: seq<State>, events: seq<Event>, i: nat, id: OrderId)
    requires Injective(p) && IsRun(p, states, events) && i < |states| && Refund(id) in states[i].calls
    ensures id in states[i].memory.orders && WasRead(states[i].receipts, states[i].memory.orders[id], Reverted)
    ensures states[i].memory.orders[id].state in {RefundPending, Refunded}
  {
    RunStays(p, states, events, i);
    assert CallBacked(states[i], Refund(id)) && StoredWell(p, states[i], id);
  }

  lemma NewReceipt(p: Policy, s: State, e: Event, s': State, read: (Hash, Receipt))
    requires Step(p, s, e, s') && read in s'.receipts && read !in s.receipts
    ensures e.ReceiptRead? && e.receipt == read.1
    ensures e.task in s.tasks && s.tasks[e.task].order.progress.registrationTxHash == Some(read.0)
  {
  }

  // A receipt counted as read was indeed an answer of the chain.
  lemma {:induction false} ReceiptsWereRead(p: Policy, states: seq<State>, events: seq<Event>, i: nat,
                                            read: (Hash, Receipt))
    requires IsRun(p, states, events) && i < |states| && read in states[i].receipts
    ensures exists k | 0 <= k < i :: events[k].ReceiptRead? && events[k].receipt == read.1
                                     && events[k].task in states[k].tasks
                                     && states[k].tasks[events[k].task].order.progress.registrationTxHash ==
                                        Some(read.0)
  {
    if read in states[i - 1].receipts {
      ReceiptsWereRead(p, states, events, i - 1, read);
    } else {
      NewReceipt(p, states[i - 1], events[i - 1], states[i], read);
    }
  }
}
