// MemoryOrderStore (apps/x402-keeper/src/store.ts): stored orders are objects assigned in place; every
// argument and every answer is cloned.
module OrderStore {
  import opened Options
  import opened Orders

  class KeeperOrder {
    const quote: Quote
    var state: OrderState
    var progress: Progress

    constructor (order: Order)
      ensures View() == order
    {
      quote, state, progress := order.quote, order.state, order.progress;
    }

    function View(): Order
      reads this
    {
      Order(quote, state, progress)
    }
  }

  // structuredClone
  method Clone(order: KeeperOrder) returns (copy: KeeperOrder)
    ensures fresh(copy) && copy.View() == order.View()
  {
    copy := new KeeperOrder(order.View());
  }

  class MemoryOrderStore {
    var orders: map<OrderId, KeeperOrder>
    var byIdempotency: map<string, OrderId>
    ghost var view: Memory // the value of the store, kept beside the maps
    ghost var Repr: set<KeeperOrder>

    ghost predicate Valid()
      reads this, Repr
    {
      && (forall id <- orders :: orders[id] in Repr)
      && view.orders.Keys == orders.Keys
      && (forall id <- orders :: view.orders[id] == orders[id].View())
      && view.byIdempotency == byIdempotency
      && MemoryValid(view)
    }

    constructor ()
      ensures Valid() && view == Memory(map[], map[]) && Repr == {}
    {
      orders, byIdempotency := map[], map[];
      view, Repr := Memory(map[], map[]), {};
    }

    // Both Map.set calls of a creation.
    method Insert(stored: KeeperOrder)
      requires Valid() && stored.quote.id !in orders && stored.quote.idempotencyKey !in byIdempotency && stored !in Repr
      modifies this`orders, this`byIdempotency, this`view, this`Repr
      ensures Valid() && Repr == old(Repr) + {stored}
      ensures view == MemoryCreate(old(view), stored.View()).0
    {
      InsertKeepsValid(view, stored.View());
      orders, byIdempotency := orders[stored.quote.id := stored],
                               byIdempotency[stored.quote.idempotencyKey := stored.quote.id];
      view, Repr := MemoryCreate(view, stored.View()).0, Repr + {stored};
    }

    // Neither the argument nor the answer is a stored object. A new order has a fresh random id.
    method Create(order: KeeperOrder) returns (answer: KeeperOrder?, idempotent: bool)
      requires Valid()
      requires order.quote.id !in orders || order.quote.idempotencyKey in byIdempotency
      modifies this`orders, this`byIdempotency, this`view, this`Repr
      ensures Valid() && fresh(Repr - old(Repr))
      ensures answer != null ==> fresh(answer) && answer !in Repr
      ensures MemoryCreate(old(view), order.View())
              == (view, if answer == null then Err(KeyReused) else Ok((answer.View(), idempotent)))
    {
      if order.quote.idempotencyKey !in byIdempotency {
        var stored := Clone(order);
        Insert(stored);
        answer := Clone(order);
        return answer, false;
      }
      var existing := orders[byIdempotency[order.quote.idempotencyKey]];
      if existing.quote.fingerprint != order.quote.fingerprint { return null, false; }
      answer := Clone(existing);
      return answer, true;
    }

    method Get(id: OrderId) returns (answer: KeeperOrder?)
      requires Valid()
      ensures Valid()
      ensures answer != null ==> fresh(answer)
      ensures MemoryGet(view, id) == if answer == null then None else Some(answer.View())
    {
      if id !in orders { return null; }
      answer := Clone(orders[id]);
    }

    // Object.assign on a stored order.
    method Assign(order: KeeperOrder, to: OrderState, patch: Progress)
      requires Valid() && order.quote.id in orders && orders[order.quote.id] == order
      modifies order, this`view
      ensures Valid()
      ensures order.View() == Order(order.quote, to, Orders.Assign(old(order.progress), patch))
      ensures view == old(view).(orders := old(view).orders[order.quote.id := order.View()])
    {
      order.state, order.progress := to, Orders.Assign(order.progress, patch);
      view := view.(orders := view.orders[order.quote.id := order.View()]);
    }

    // The compare-and-swap.
    method Transition(id: OrderId, from: OrderState, to: OrderState, patch: Progress) returns (answer: KeeperOrder?)
      requires Valid()
      modifies Repr, this`view
      ensures Valid() && (answer != null ==> fresh(answer))
      ensures var (store, result) := MemoryTransition(old(view), id, from, to, patch);
              view == store && if answer == null then result.Err? else result == Ok(answer.View())
    {
      if to !in AllowedTransitions(from) || id !in orders || orders[id].state != from { return null; }
      Assign(orders[id], to, patch);
      answer := Clone(orders[id]);
    }
  }
}
