/** The calls of the order service, column by column: when each is accepted and what it writes. */
module OrderColumns {
  import opened Base
  import opened Domain
  import opened Tables
  import opened Store
  import opened OrderCalls

  /** The column takes the barcode, and no order but `id` has it. */
  predicate BarcodeFree(orders: map<Id, Order>, id: Id, barcode: string) {
    |barcode| <= 100 && forall o <- orders :: o != id ==> orders[o].barcode != barcode
  }

  /** Only the order `id` differs, and no other table does. */
  ghost predicate OnlyOrder(db: Db, next: Db, id: Id) {
    && id in next.orders && next == db.(orders := db.orders[id := next.orders[id]])
  }

  /** A new order is stored, REGISTERED and without a parent, exactly when its id and its barcode are free. */
  lemma RegisterColumns(db: Db, id: Id, row: Order)
    ensures AfterOrderCall(db, Register(id, row))
         == if id !in db.orders && BarcodeFree(db.orders, id, row.barcode) then
              db.(orders := db.orders[id := row.(status := OrderStatus.Registered, movedAs := None)])
            else db
  {
  }

  /**
   An edit is accepted exactly for a REGISTERED or POSTPONED order and a barcode that stays free; what is not
   given, and an empty barcode, leaves the column as it is.
   */
  lemma EditColumns(db: Db, id: Id, barcode: Option<string>, expected: Option<string>)
    ensures var next := AfterOrderCall(db, Edit(id, barcode, expected));
      if id in db.orders && (db.orders[id].status.Registered? || db.orders[id].status.Postponed?)
         && BarcodeFree(db.orders, id, if barcode.Some? && barcode.value != "" then barcode.value
                                       else db.orders[id].barcode)
      then
        && OnlyOrder(db, next, id)
        && RestatedTo(
             db.orders[id].(
               barcode := if barcode.Some? && barcode.value != "" then barcode.value else db.orders[id].barcode,
               expectedDelivery := if expected.Some? then expected else db.orders[id].expectedDelivery),
             next.orders[id], db.orders[id].status)
      else next == db
  {
  }

  /** A REGISTERED order is removed with its missions; a POSTPONED or UNASSIGNED one is cancelled; others stay. */
  lemma RemoveColumns(db: Db, id: Id)
    ensures var next := AfterOrderCall(db, Remove(id));
      if id !in db.orders then next == db
      else
        match db.orders[id].status
        case Registered =>
          && next == db.(orders := db.orders - {id}, missions := next.missions)
          && (forall m :: m in next.missions <==> m in db.missions && db.missions[m].orderId != id)
          && (forall m <- next.missions :: next.missions[m] == db.missions[m])
        case Postponed => OnlyOrder(db, next, id) && RestatedTo(db.orders[id], next.orders[id], OrderStatus.Cancelled)
        case Unassigned => OnlyOrder(db, next, id) && RestatedTo(db.orders[id], next.orders[id], OrderStatus.Cancelled)
        case _ => next == db
  {
  }

  /** Any order not delivered yet becomes DELIVERED on the day of `now`, dated at its midnight. */
  lemma MarkDeliveredColumns(db: Db, id: Id, now: Instant)
    ensures var next := AfterOrderCall(db, OrderCall.MarkDelivered(id, now));
      if id in db.orders && !db.orders[id].status.Delivered? then
        && OnlyOrder(db, next, id) && next.orders[id].actualDelivery.Some?
        && var date := next.orders[id].actualDelivery;
        && date.value % DAY == 0 && date.value <= now < date.value + DAY
        && RestatedTo(db.orders[id].(actualDelivery := date), next.orders[id], OrderStatus.Delivered)
      else next == db
  {
  }

  /** Any order not cancelled yet becomes CANCELLED, delivered or not. */
  lemma MarkCancelledColumns(db: Db, id: Id)
    ensures var next := AfterOrderCall(db, OrderCall.MarkCancelled(id));
      if id in db.orders && !db.orders[id].status.Cancelled? then
        OnlyOrder(db, next, id) && RestatedTo(db.orders[id], next.orders[id], OrderStatus.Cancelled)
      else next == db
  {
  }
}
