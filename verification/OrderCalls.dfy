/** What the calls of the order service do to the tables. Each is one transaction. */
module OrderCalls {
  import opened Base
  import opened Domain
  import opened Tables
  import opened Store

  /** A postponement request: `newIds[i]` is the id drawn for the successor of `ids[i]`; `date` is in ISO form. */
  datatype Batch = Batch(ids: seq<Id>, terminal: Id, shift: Id, date: string, newIds: seq<Id>)

  datatype OrderCall =
    | Register(id: Id, row: Order)
    | Edit(id: Id, barcode: Option<string>, expected: Option<string>)
    | Remove(id: Id)
    | MarkDelivered(id: Id, now: Instant)
    | MarkCancelled(id: Id)
    | Postpone(batch: Batch)

  // ---------------------------------------------------------------- postponing

  function Successor(parent: Order, id: Id, b: Batch): Order {
    parent.(terminalId := b.terminal, shiftId := b.shift, barcode := parent.barcode + b.date,
            status := OrderStatus.Registered, expectedDelivery := Some(b.date), movedAs := Some(id))
  }

  /** The pending orders after the first `k` ids, or None once a successor was rejected. */
  function Postponing(orders: map<Id, Order>, b: Batch, k: nat): Option<map<Id, Order>>
    requires k <= |b.ids| == |b.newIds|
  {
    if k == 0 then Some(orders)
    else
      var before := Postponing(orders, b, k - 1);
      if before.None? || b.ids[k - 1] !in before.value then before
      else
        var id := b.ids[k - 1];
        var row := before.value[id];
        var marked := before.value[id := row.(status := OrderStatus.Postponed)];
        if FitsColumns(marked, b.newIds[k - 1], Successor(row, id, b)) then
          Some(marked[b.newIds[k - 1] := Successor(row, id, b)])
        else None
  }

  function AfterPostpone(orders: map<Id, Order>, b: Batch): map<Id, Order>
    requires |b.ids| == |b.newIds|
  {
    var all := Postponing(orders, b, |b.ids|);
    if all.Some? then all.value else orders
  }

  // ---------------------------------------------------------------- the other calls

  /** An empty barcode or date in the request counts as not given. */
  function Edited(row: Order, barcode: Option<string>, expected: Option<string>): Order {
    var entity := OrderEntity(row);
    OverwriteOrder(row, entity.(
      barcode := if barcode.Some? && barcode.value != "" then barcode.value else entity.barcode,
      expectedDelivery := Given(expected, entity.expectedDelivery)))
  }

  predicate CanEdit(o: Order) {
    o.status in {OrderStatus.Registered, OrderStatus.Postponed}
  }

  /** A delivery date is stored as the midnight it starts at. */
  function DateOf(now: Instant): Instant {
    now - TimeOf(now)
  }

  function MarkedDelivered(row: Order, now: Instant): Order {
    OverwriteOrder(row, OrderEntity(row).(status := OrderStatus.Delivered, actualDelivery := Some(DateOf(now))))
  }

  function Registered(row: Order): Order {
    row.(status := OrderStatus.Registered, movedAs := None)
  }

  function AfterOrderCall(db: Db, c: OrderCall): Db
    requires c.Postpone? ==> |c.batch.ids| == |c.batch.newIds|
  {
    if c.Postpone? then db.(orders := AfterPostpone(db.orders, c.batch))
    else if c.Register? then
      if c.id !in db.orders && FitsColumns(db.orders, c.id, Registered(c.row)) then
        db.(orders := db.orders[c.id := Registered(c.row)])
      else db
    else if c.id !in db.orders then db
    else
      var row := db.orders[c.id];
      match c
      case Edit(id, barcode, expected) =>
        if CanEdit(row) && FitsColumns(db.orders, id, Edited(row, barcode, expected)) then
          db.(orders := db.orders[id := Edited(row, barcode, expected)])
        else db
      case Remove(id) =>
        if row.status.Registered? then
          db.(orders := db.orders - {id}, missions := db.missions - MissionsFor(db.missions, id))
        else if row.status.Postponed? || row.status.Unassigned? then
          db.(orders := db.orders[id := Restatus(row, OrderStatus.Cancelled)])
        else db
      case MarkDelivered(id, now) =>
        if row.status.Delivered? then db else db.(orders := db.orders[id := MarkedDelivered(row, now)])
      case MarkCancelled(id) =>
        if row.status.Cancelled? then db
        else db.(orders := db.orders[id := Restatus(row, OrderStatus.Cancelled)])
  }

  /** The ids drawn for successors are new: no order has them, the request does not name them, none is repeated. */
  ghost predicate NewIds(orders: map<Id, Order>, c: OrderCall) {
    c.Postpone? ==>
      && (forall i :: 0 <= i < |c.batch.newIds| ==> c.batch.newIds[i] !in orders && c.batch.newIds[i] !in c.batch.ids)
      && (forall i, j :: 0 <= i < j < |c.batch.newIds| ==> c.batch.newIds[i] != c.batch.newIds[j])
  }
}
