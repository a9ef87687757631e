// The durable x402 order and the two order stores as values (apps/x402-keeper/src/state.ts, store.ts).
// Timestamps are not modelled.
module Orders {
  import opened Options
  import opened Permits

  type OrderId = nat
  type Payload = nat

  datatype OrderState =
    | Quoted
    | PermitIssued
    | PaymentAuthorized
    | RegistrationSubmitted
    | RegistrationConfirmed
    | PaymentSettled
    | RefundPending
    | Refunded
    | ManualReview

  function AllowedTransitions(from: OrderState): set<OrderState> {
    match from
    case Quoted => {PermitIssued, ManualReview}
    case PermitIssued => {PaymentAuthorized, ManualReview}
    case PaymentAuthorized => {RegistrationSubmitted, RefundPending, ManualReview}
    case RegistrationSubmitted => {RegistrationConfirmed, RefundPending, ManualReview}
    case RegistrationConfirmed => {PaymentSettled, RefundPending, ManualReview}
    case PaymentSettled => {RefundPending, ManualReview}
    case RefundPending => {Refunded, ManualReview}
    case Refunded => {}
    case ManualReview => {}
  }

  // The columns written at creation; nothing updates them.
  datatype Quote = Quote(
    id: OrderId,
    idempotencyKey: string,
    fingerprint: Hash,
    label_: string,
    labelHash: Hash,
    namehash: Hash,
    recipient: Address,
    controller: Address,
    releaseId: Hash,
    amount: nat)

  datatype AgentPermit = AgentPermit(
    chainId: nat,
    controller: Address,
    releaseId: Hash,
    profileHash: Hash,
    labelHash: Hash,
    namehash: Hash,
    recipient: Address,
    payer: Address,
    executor: Address,
    durationYears: nat,
    settlementAsset: Address,
    amount: nat,
    permitId: Hash,
    validAfter: int,
    validUntil: int)

  // The columns a transition may set; null is None. The same shape serves as an OrderPatch, where None
  // means the key is absent.
  datatype Progress = Progress(
    permitId: Option<Hash>,
    permitPayload: Option<AgentPermit>,
    permitSignature: Option<Hash>,
    paymentIdentifier: Option<Hash>,
    paymentPayload: Option<Payload>,
    registrationTxHash: Option<Hash>,
    registrationTokenId: Option<nat>,
    settlementTxHash: Option<Hash>,
    refundTxHash: Option<Hash>,
    failureCode: Option<string>)

  datatype Order = Order(quote: Quote, state: OrderState, progress: Progress)

  const BLANK := Progress(None, None, None, None, None, None, None, None, None, None)

  datatype StoreError = InvalidTransition | CasConflict | KeyReused | UniqueViolation

  // ---- the in-memory store ----

  datatype Memory = Memory(orders: map<OrderId, Order>, byIdempotency: map<string, OrderId>)

  function Assigned<T>(old_: Option<T>, patch: Option<T>): Option<T> {
    if patch.Some? then patch else old_
  }

  // Object.assign(order, patch, ...)
  function Assign(p: Progress, patch: Progress): Progress {
    Progress(Assigned(p.permitId, patch.permitId), Assigned(p.permitPayload, patch.permitPayload),
             Assigned(p.permitSignature, patch.permitSignature), Assigned(p.paymentIdentifier, patch.paymentIdentifier),
             Assigned(p.paymentPayload, patch.paymentPayload), Assigned(p.registrationTxHash, patch.registrationTxHash),
             Assigned(p.registrationTokenId, patch.registrationTokenId),
             Assigned(p.settlementTxHash, patch.settlementTxHash),
             Assigned(p.refundTxHash, patch.refundTxHash), Assigned(p.failureCode, patch.failureCode))
  }

  ghost predicate MemoryValid(m: Memory) {
    && (forall id <- m.orders :: m.orders[id].quote.id == id)
    && (forall k <- m.byIdempotency :: m.byIdempotency[k] in m.orders
                                       && m.orders[m.byIdempotency[k]].quote.idempotencyKey == k)
    && (forall id <- m.orders :: m.orders[id].quote.idempotencyKey in m.byIdempotency
                                 && m.byIdempotency[m.orders[id].quote.idempotencyKey] == id)
  }

  // create(): the stored order and whether it was there before.
  function MemoryCreate(m: Memory, o: Order): (Memory, Result<(Order, bool), StoreError>)
    requires MemoryValid(m)
  {
    if o.quote.idempotencyKey in m.byIdempotency then
      var existing := m.orders[m.byIdempotency[o.quote.idempotencyKey]];
      if existing.quote.fingerprint != o.quote.fingerprint then (m, Err(KeyReused)) else (m, Ok((existing, true)))
    else
      (Memory(m.orders[o.quote.id := o], m.byIdempotency[o.quote.idempotencyKey := o.quote.id]), Ok((o, false)))
  }

  lemma InsertKeepsValid(m: Memory, o: Order)
    requires MemoryValid(m) && o.quote.id !in m.orders && o.quote.idempotencyKey !in m.byIdempotency
    ensures MemoryValid(MemoryCreate(m, o).0)
    ensures MemoryCreate(m, o).0 ==
            Memory(m.orders[o.quote.id := o], m.byIdempotency[o.quote.idempotencyKey := o.quote.id])
  {
  }

  function MemoryGet(m: Memory, id: OrderId): Option<Order> {
    if id in m.orders then Some(m.orders[id]) else None
  }

  function MemoryTransition(m: Memory, id: OrderId, from: OrderState, to: OrderState, patch: Progress)
    : (Memory, Result<Order, StoreError>)
  {
    if to !in AllowedTransitions(from) then (m, Err(InvalidTransition))
    else if id !in m.orders || m.orders[id].state != from then (m, Err(CasConflict))
    else
      var next := Order(m.orders[id].quote, to, Assign(m.orders[id].progress, patch));
      (m.(orders := m.orders[id := next]), Ok(next))
  }

  // ---- the SQL store: one table with primary key id ----

  type Table = map<OrderId, Order>

  function Coalesce<T>(patch: Option<T>, column: Option<T>): Option<T> {
    match patch
    case Some(_) => patch
    case None => column
  }

  function CoalesceAll(patch: Progress, row: Progress): Progress {
    Progress(Coalesce(patch.permitId, row.permitId), Coalesce(patch.permitPayload, row.permitPayload),
             Coalesce(patch.permitSignature, row.permitSignature),
             Coalesce(patch.paymentIdentifier, row.paymentIdentifier),
             Coalesce(patch.paymentPayload, row.paymentPayload),
             Coalesce(patch.registrationTxHash, row.registrationTxHash),
             Coalesce(patch.registrationTokenId, row.registrationTokenId),
             Coalesce(patch.settlementTxHash, row.settlementTxHash),
             Coalesce(patch.refundTxHash, row.refundTxHash), Coalesce(patch.failureCode, row.failureCode))
  }

  ghost predicate KeyTaken(t: Table, key: string) {
    exists id <- t :: t[id].quote.idempotencyKey == key
  }

  // INSERT ... ON CONFLICT (idempotency_key) DO NOTHING writes the creation columns only; a clash on the
  // primary key alone is an error; a clash on the key selects the row that is there.
  ghost function SqlCreate(t: Table, o: Order): (Table, Result<(Order, bool), StoreError>) {
    if KeyTaken(t, o.quote.idempotencyKey) then
      var id :| id in t && t[id].quote.idempotencyKey == o.quote.idempotencyKey;
      if t[id].quote.fingerprint != o.quote.fingerprint then (t, Err(KeyReused)) else (t, Ok((t[id], true)))
    else if o.quote.id in t then (t, Err(UniqueViolation))
    else
      var row := Order(o.quote, o.state, BLANK);
      (t[o.quote.id := row], Ok((row, false)))
  }

  // A unique index would see the written permit_id or payment_identifier on another row.
  ghost predicate Clashes(t: Table, id: OrderId, patch: Progress) {
    exists other <- t :: other != id
      && ((patch.permitId.Some? && t[other].progress.permitId == patch.permitId)
          || (patch.paymentIdentifier.Some? && t[other].progress.paymentIdentifier == patch.paymentIdentifier))
  }

  ghost function SqlTransition(t: Table, id: OrderId, from: OrderState, to: OrderState, patch: Progress)
    : (Table, Result<Order, StoreError>)
  {
    if to !in AllowedTransitions(from) then (t, Err(InvalidTransition))
    else if id !in t || t[id].state != from then (t, Err(CasConflict))
    else if Clashes(t, id, patch) then (t, Err(UniqueViolation))
    else
      var next := Order(t[id].quote, to, CoalesceAll(patch, t[id].progress));
      (t[id := next], Ok(next))
  }

  // ---- agreement of the two stores ----

  datatype Call =
    | Create(order: Order)
    | Get(id: OrderId)
    | Transition(id: OrderId, from: OrderState, to: OrderState, patch: Progress)

  datatype Answer =
    | Created(result: Result<(Order, bool), StoreError>)
    | Found(order: Option<Order>)
    | Moved(outcome: Result<Order, StoreError>)

  function OnMemory(m: Memory, c: Call): (Memory, Answer)
    requires MemoryValid(m)
  {
    match c
    case Create(o) => var (m', r) := MemoryCreate(m, o); (m', Created(r))
    case Get(id) => (m, Found(MemoryGet(m, id)))
    case Transition(id, from, to, patch) => var (m', r) := MemoryTransition(m, id, from, to, patch); (m', Moved(r))
  }

  ghost function OnSql(t: Table, c: Call): (Table, Answer) {
    match c
    case Create(o) => var (t', r) := SqlCreate(t, o); (t', Created(r))
    case Get(id) => (t, Found(if id in t then Some(t[id]) else None))
    case Transition(id, from, to, patch) => var (t', r) := SqlTransition(t, id, from, to, patch); (t', Moved(r))
  }

  // A call on which the stores must differ: a new key with an id in use or with progress columns already
  // filled, or a transition that would go through and put a shared identifier on a second order.
  ghost predicate Diverges(m: Memory, c: Call) {
    match c
    case Create(o) => o.quote.idempotencyKey !in m.byIdempotency && (o.quote.id in m.orders || o.progress != BLANK)
    case Get(_) => false
    case Transition(id, from, to, patch) =>
      to in AllowedTransitions(from) && id in m.orders && m.orders[id].state == from && Clashes(m.orders, id, patch)
  }

  // One call: same answer exactly when the call does not diverge, and then the same table. A call that
  // diverges, for an order without progress, is one the SQL store refuses without effect.
  lemma StoresAgree(m: Memory, c: Call)
    requires MemoryValid(m)
    ensures OnMemory(m, c).1 == OnSql(m.orders, c).1 <==> !Diverges(m, c)
    ensures !Diverges(m, c) ==> OnMemory(m, c).0.orders == OnSql(m.orders, c).0 && MemoryValid(OnMemory(m, c).0)
    ensures Diverges(m, c) && (c.Create? ==> c.order.progress == BLANK) ==> OnSql(m.orders, c).0 == m.orders
  {
    match c
    case Create(o) =>
      if o.quote.idempotencyKey in m.byIdempotency {
        assert m.byIdempotency[o.quote.idempotencyKey] in m.orders;
        assert KeyTaken(m.orders, o.quote.idempotencyKey);
      }
    case _ =>
  }

  function MemoryRun(m: Memory, calls: seq<Call>): seq<Answer>
    requires MemoryValid(m)
    requires RunsClean(m, calls)
    decreases |calls|
  {
    if calls == [] then []
    else
      StoresAgree(m, calls[0]);
      [OnMemory(m, calls[0]).1] + MemoryRun(OnMemory(m, calls[0]).0, calls[1..])
  }

  ghost function SqlRun(t: Table, calls: seq<Call>): seq<Answer>
    decreases |calls|
  {
    if calls == [] then [] else [OnSql(t, calls[0]).1] + SqlRun(OnSql(t, calls[0]).0, calls[1..])
  }

  // No call of the run diverges where it is made.
  ghost predicate RunsClean(m: Memory, calls: seq<Call>)
    requires MemoryValid(m)
    decreases |calls|
  {
    calls == []
    || (!Diverges(m, calls[0])
        && (StoresAgree(m, calls[0]); RunsClean(OnMemory(m, calls[0]).0, calls[1..])))
  }

  // Both stores give the same answers on every run in which orders are created without progress and no order
  // id, permit id or payment identifier is shared by two of them.
  lemma {:induction false} RunsAgree(m: Memory, calls: seq<Call>)
    requires MemoryValid(m) && RunsClean(m, calls)
    ensures MemoryRun(m, calls) == SqlRun(m.orders, calls)
    decreases |calls|
  {
    if calls != [] {
      StoresAgree(m, calls[0]);
      RunsAgree(OnMemory(m, calls[0]).0, calls[1..]);
    }
  }
}
