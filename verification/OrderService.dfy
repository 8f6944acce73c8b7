/** The order service: every call reads, writes without committing, and then commits or rolls back as a whole. */
module OrderService {
  import opened Base
  import opened Domain
  import opened Tables
  import opened Store
  import opened OrderCalls

  class OrderService {
    const store: Store

    constructor (store: Store)
      ensures this.store == store
    {
      this.store := store;
    }

    /** All or nothing: one commit with every successor, or none and the tables as they were. */
    method PostponeOrders(b: Batch) returns (postponed: seq<Id>)
      requires |b.ids| == |b.newIds|
      modifies store
      ensures store.State() == AfterOrderCall(old(store.State()), Postpone(b))
      ensures var all := Postponing(old(store.orders), b, |b.ids|);
              store.history == old(store.history) + if all.Some? then [store.State()] else []
    {
      var before := store.orders;
      postponed := [];
      for k := 0 to |b.ids|
        invariant Postponing(before, b, k) == Some(store.orders)
        invariant store.State() == old(store.State()).(orders := store.orders) && store.history == old(store.history)
      {
        var id := b.ids[k];
        if id !in store.orders {
          continue;
        }
        var row := store.orders[id];
        store.orders := store.orders[id := row.(status := OrderStatus.Postponed)];
        var ok := store.FlushOrder(b.newIds[k], Successor(row, id, b));
        if !ok {
          store.orders := before;
          FailureStays(before, b, k + 1, |b.ids|);
          return [];
        }
        postponed := postponed + [b.newIds[k]];
      }
      store.Commit();
    }

    method RegisterOrder(id: Id, row: Order) returns (ok: bool)
      modifies store
      ensures store.State() == AfterOrderCall(old(store.State()), Register(id, row))
      ensures store.history == old(store.history) + if ok then [store.State()] else []
    {
      if id in store.orders {
        return false;
      }
      ok := store.FlushOrder(id, row.(status := OrderStatus.Registered, movedAs := None));
      if ok {
        store.Commit();
      }
    }

    method UpdateOrder(id: Id, barcode: Option<string>, expected: Option<string>) returns (ok: bool)
      modifies store
      ensures store.State() == AfterOrderCall(old(store.State()), Edit(id, barcode, expected))
      ensures store.history == old(store.history) + if ok then [store.State()] else []
    {
      if id !in store.orders || !CanEdit(store.orders[id]) {
        return false;
      }
      var entity := OrderEntity(store.orders[id]);
      if barcode.Some? && barcode.value != "" {
        entity := entity.(barcode := barcode.value);
      }
      if expected.Some? {
        entity := entity.(expectedDelivery := expected);
      }
      ok := store.FlushOrder(id, OverwriteOrder(store.orders[id], entity));
      if ok {
        store.Commit();
      }
    }

    method DeleteOrder(id: Id) returns (ok: bool)
      modifies store
      ensures store.State() == AfterOrderCall(old(store.State()), Remove(id))
      ensures store.history == old(store.history) + if ok then [store.State()] else []
    {
      ok := id in store.orders
            && store.orders[id].status in {OrderStatus.Registered, OrderStatus.Postponed, OrderStatus.Unassigned};
      if ok {
        if store.orders[id].status.Registered? {
          store.DeleteOrder(id);
        } else {
          var entity := OrderEntity(store.orders[id]).(status := OrderStatus.Cancelled);
          store.orders := store.orders[id := OverwriteOrder(store.orders[id], entity)];
        }
        store.Commit();
      }
    }

    method MarkDelivered(id: Id, now: Instant) returns (ok: bool)
      modifies store
      ensures store.State() == AfterOrderCall(old(store.State()), OrderCall.MarkDelivered(id, now))
      ensures store.history == old(store.history) + if ok then [store.State()] else []
    {
      ok := id in store.orders && !store.orders[id].status.Delivered?;
      if ok {
        var entity := OrderEntity(store.orders[id]).(
          status := OrderStatus.Delivered, actualDelivery := Some(DateOf(now)));
        store.orders := store.orders[id := OverwriteOrder(store.orders[id], entity)];
        store.Commit();
      }
    }

    method MarkCancelled(id: Id) returns (ok: bool)
      modifies store
      ensures store.State() == AfterOrderCall(old(store.State()), OrderCall.MarkCancelled(id))
      ensures store.history == old(store.history) + if ok then [store.State()] else []
    {
      ok := id in store.orders && !store.orders[id].status.Cancelled?;
      if ok {
        var entity := OrderEntity(store.orders[id]).(status := OrderStatus.Cancelled);
        store.orders := store.orders[id := OverwriteOrder(store.orders[id], entity)];
        store.Commit();
      }
    }
  }

  lemma {:induction false} FailureStays(orders: map<Id, Order>, b: Batch, k: nat, n: nat)
    requires k <= n <= |b.ids| == |b.newIds| && Postponing(orders, b, k).None?
    ensures Postponing(orders, b, n).None?
  {
    if k == n {
    } else {
      FailureStays(orders, b, k, n - 1);
    }
  }
}
