// What each call of the two order stores answers and writes, column by column
// (apps/x402-keeper/src/store.ts).
module OrderAnswers {
  import opened Options
  import opened Orders

  // ---- transitions ----

  // A column after a transition: what the patch sets, or what was there.
  predicate Lands<T(==)>(before: Option<T>, patch: Option<T>, after: Option<T>) {
    if patch == None then after == before else after == patch
  }

  // The order keeps its creation columns, has the new state, and every column is set or kept.
  predicate IsMoved(before: Order, to: OrderState, patch: Progress, after: Order) {
    var (b, a) := (before.progress, after.progress);
    && after.quote == before.quote && after.state == to
    && Lands(b.permitId, patch.permitId, a.permitId)
    && Lands(b.permitPayload, patch.permitPayload, a.permitPayload)
    && Lands(b.permitSignature, patch.permitSignature, a.permitSignature)
    && Lands(b.paymentIdentifier, patch.paymentIdentifier, a.paymentIdentifier)
    && Lands(b.paymentPayload, patch.paymentPayload, a.paymentPayload)
    && Lands(b.registrationTxHash, patch.registrationTxHash, a.registrationTxHash)
    && Lands(b.registrationTokenId, patch.registrationTokenId, a.registrationTokenId)
    && Lands(b.settlementTxHash, patch.settlementTxHash, a.settlementTxHash)
    && Lands(b.refundTxHash, patch.refundTxHash, a.refundTxHash)
    && Lands(b.failureCode, patch.failureCode, a.failureCode)
  }

  // One order is another, and no other order changes.
  predicate Replaces(before: Table, after: Table, id: OrderId, order: Order) {
    after == before[id := order]
  }

  // The compare-and-swap: the table first, then presence and state; an answered order is the stored one.
  lemma MemoryTransitionAnswers(m: Memory, id: OrderId, from: OrderState, to: OrderState, patch: Progress)
    ensures var (m', r) := MemoryTransition(m, id, from, to, patch);
            && (r.Ok? <==> to in AllowedTransitions(from) && id in m.orders && m.orders[id].state == from)
            && (r == Err(InvalidTransition) <==> to !in AllowedTransitions(from))
            && (r.Err? ==> m' == m && r.error in {InvalidTransition, CasConflict})
            && (r.Ok? ==> IsMoved(m.orders[id], to, patch, r.value) && Replaces(m.orders, m'.orders, id, r.value)
                          && m'.byIdempotency == m.byIdempotency)
  {
  }

  // What the patch sets as permit id or payment identifier is there already.
  predicate Shares(patch: Progress, row: Progress) {
    || (patch.permitId.Some? && row.permitId == patch.permitId)
    || (patch.paymentIdentifier.Some? && row.paymentIdentifier == patch.paymentIdentifier)
  }

  // The SQL update is the same, but a unique index refuses an identifier that another row has.
  lemma SqlTransitionAnswers(t: Table, id: OrderId, from: OrderState, to: OrderState, patch: Progress)
    ensures var (t', r) := SqlTransition(t, id, from, to, patch);
            && (r.Ok? <==> to in AllowedTransitions(from) && id in t && t[id].state == from
                           && forall other <- t :: other != id ==> !Shares(patch, t[other].progress))
            && (r == Err(InvalidTransition) <==> to !in AllowedTransitions(from))
            && (r == Err(CasConflict) <==> to in AllowedTransitions(from) && (id in t ==> t[id].state != from))
            && (r.Err? ==> t' == t && r.error in {InvalidTransition, CasConflict, UniqueViolation})
            && (r.Ok? ==> IsMoved(t[id], to, patch, r.value) && Replaces(t, t', id, r.value))
  {
    assert Clashes(t, id, patch) <==> exists other <- t :: other != id && Shares(patch, t[other].progress);
  }

  // Of two transitions of one order from one state at most one succeeds, whatever they write.
  lemma OneTransitionWins(m: Memory, id: OrderId, from: OrderState, to: OrderState, to': OrderState, patch: Progress,
                          patch': Progress)
    ensures var (m', r) := MemoryTransition(m, id, from, to, patch);
            r.Ok? ==> MemoryTransition(m', id, from, to', patch').1.Err?
  {
    MemoryTransitionAnswers(m, id, from, to, patch);
    assert from !in AllowedTransitions(from);
  }

  // ---- creation ----

  // A known key is answered by its order, or refused on another fingerprint; a new one stores the order.
  lemma MemoryCreateAnswers(m: Memory, o: Order)
    requires MemoryValid(m)
    ensures var (m', r) := MemoryCreate(m, o);
            if o.quote.idempotencyKey !in m.byIdempotency then
              && r == Ok((o, false)) && Replaces(m.orders, m'.orders, o.quote.id, o)
              && m'.byIdempotency == m.byIdempotency[o.quote.idempotencyKey := o.quote.id]
            else
              && m' == m && m.byIdempotency[o.quote.idempotencyKey] in m.orders
              && var known := m.orders[m.byIdempotency[o.quote.idempotencyKey]];
                 && known.quote.idempotencyKey == o.quote.idempotencyKey
                 && r == if known.quote.fingerprint == o.quote.fingerprint then Ok((known, true)) else Err(KeyReused)
  {
  }

  // No two rows share a key, as the unique index keeps it.
  ghost predicate KeysDiffer(t: Table) {
    forall a, b | a in t && b in t && t[a].quote.idempotencyKey == t[b].quote.idempotencyKey :: a == b
  }

  // The SQL insert is the same, but it writes no progress column and refuses a used id under a new key.
  lemma SqlCreateAnswers(t: Table, o: Order)
    requires KeysDiffer(t)
    ensures var (t', r) := SqlCreate(t, o);
            && KeysDiffer(t')
            && (forall id | id in t && t[id].quote.idempotencyKey == o.quote.idempotencyKey ::
                  t' == t && r == if t[id].quote.fingerprint == o.quote.fingerprint then Ok((t[id], true))
                                  else Err(KeyReused))
            && ((forall id <- t :: t[id].quote.idempotencyKey != o.quote.idempotencyKey) ==>
                  if o.quote.id in t then t' == t && r == Err(UniqueViolation)
                  else
                    && r.Ok? && !r.value.1 && r.value.0.quote == o.quote && r.value.0.state == o.state
                    && r.value.0.progress == BLANK && Replaces(t, t', o.quote.id, r.value.0))
  {
  }
}
