/** Following `moved_as` from a postponed order's successor back to the order it came from. */
module Lineage {
  import opened Base
  import opened Domain
  import opened Tables
  import opened Store
  import opened Planning
  import opened OrderCalls
  import opened Postponement
  import opened Lifecycle
  import opened Registered

  /** The order reached after `n` links, if there are as many. */
  function Follow(orders: map<Id, Order>, o: Id, n: nat): Option<Id>
    decreases n
  {
    if o !in orders then None
    else if n == 0 then Some(o)
    else if orders[o].movedAs.None? then None
    else Follow(orders, orders[o].movedAs.value, n - 1)
  }

  // ---------------------------------------------------------------- ids

  /** The order ids an event draws. */
  function Drawn(e: Event): set<Id> {
    if e.op.OrderChange? && e.op.call.Register? then {e.op.call.id}
    else if e.op.OrderChange? && e.op.call.Postpone? then set o | o in e.op.call.batch.newIds
    else {}
  }

  function Known(start: set<Id>, events: seq<Event>, k: nat): set<Id>
    requires k <= |events|
  {
    if k == 0 then start else Known(start, events, k - 1) + Drawn(events[k - 1])
  }

  /** Ids are drawn once. */
  ghost predicate NeverReused(start: set<Id>, events: seq<Event>) {
    forall k :: 0 <= k < |events| ==> Drawn(events[k]) !! Known(start, events, k)
  }

  // ---------------------------------------------------------------- links lead to earlier orders

  /** An order is younger than the one it was moved from, and nothing refers to an id never drawn. */
  ghost predicate Ranked(orders: map<Id, Order>, rank: map<Id, nat>, bound: nat) {
    forall o <- orders ::
      && o in rank && rank[o] < bound
      && (orders[o].movedAs.Some? ==> orders[o].movedAs.value in rank && rank[orders[o].movedAs.value] < rank[o])
  }

  /** Rows keep their link, and a newly drawn one refers to an existing order. */
  predicate Descends(orders: map<Id, Order>, orders': map<Id, Order>, drawn: set<Id>) {
    forall o <- orders' ::
      || (o in orders && orders'[o].movedAs == orders[o].movedAs)
      || (o in drawn && (orders'[o].movedAs.Some? ==> orders'[o].movedAs.value in orders))
  }

  function WithYoungest(rank: map<Id, nat>, drawn: set<Id>, bound: nat): (r: map<Id, nat>)
    ensures r.Keys == rank.Keys + drawn
  {
    map o | o in rank.Keys + drawn :: if o in drawn then bound else rank[o]
  }

  lemma RankNext(orders: map<Id, Order>, orders': map<Id, Order>, drawn: set<Id>, rank: map<Id, nat>, bound: nat)
    requires Ranked(orders, rank, bound) && Descends(orders, orders', drawn) && drawn !! rank.Keys
    ensures Ranked(orders', WithYoungest(rank, drawn, bound), bound + 1)
  {
  }

  lemma OrderCallDescends(db: Db, c: OrderCall)
    requires CallFits(c) && NewIds(db.orders, c)
    ensures Descends(db.orders, AfterOrderCall(db, c).orders, Drawn(Event(OrderChange(c), 0)))
  {
    hide AfterOrderCall, Drawn, Descends;
    if c.Postpone? {
      BatchDescends(db, c.batch);
    } else {
      SingleCallDescends(db, c);
    }
  }

  lemma SingleCallDescends(db: Db, c: OrderCall)
    requires !c.Postpone?
    ensures Descends(db.orders, AfterOrderCall(db, c).orders, Drawn(Event(OrderChange(c), 0)))
  {
    if !c.Register? && c.id in db.orders {
      RowDescends(db.orders, c.id, AfterOrderCall(db, c).orders);
    }
  }

  lemma RowDescends(orders: map<Id, Order>, id: Id, orders': map<Id, Order>)
    requires id in orders
    requires orders' == orders || orders' == orders - {id}
             || (id in orders' && orders' == orders[id := orders'[id]] && orders'[id].movedAs == orders[id].movedAs)
    ensures Descends(orders, orders', {})
  {
  }

  lemma BatchDescends(db: Db, b: Batch)
    requires ValidBatch(db.orders, b)
    ensures Descends(db.orders, AfterOrderCall(db, Postpone(b)).orders, Drawn(Event(OrderChange(Postpone(b)), 0)))
  {
    hide Postponing;
    if Postponing(db.orders, b, |b.ids|).Some? {
      PostponedDescends(db.orders, b);
    }
  }

  lemma PostponedDescends(orders: map<Id, Order>, b: Batch)
    requires ValidBatch(orders, b) && Postponing(orders, b, |b.ids|).Some?
    ensures Descends(orders, Postponing(orders, b, |b.ids|).value, set o | o in b.newIds)
  {
    hide Postponing;
    var orders' := Postponing(orders, b, |b.ids|).value;
    PostponingWrites(orders, b, |b.ids|);
    forall o | o in orders' && o !in orders
      ensures o in b.newIds && orders'[o].movedAs.Some? && orders'[o].movedAs.value in orders
    {
      var i :| 0 <= i < |b.ids| && Found(orders, b, i) && b.newIds[i] == o;
      assert Succeeded(orders, b, i, orders');
    }
  }

  lemma StepDescends(db: Db, dir: Directory, e: Event, next: Db)
    requires Supplied(db, e) && Leads(db, dir, e, next)
    ensures Descends(db.orders, next.orders, Drawn(e))
  {
    hide AfterOrderCall, DuringGenerate, DuringCancel;
    if e.op.OrderChange? {
      OrderCallDescends(db, e.op.call);
    } else {
      StepMovesOnward(db, dir, e, next);
    }
  }

  /** The known ids can be ranked so that every link leads to a lower rank. */
  lemma {:induction false} RankOf(dir: Directory, states: seq<Db>, events: seq<Event>, k: nat,
                                  start: map<Id, nat>, bound: nat)
    returns (rank: map<Id, nat>)
    requires Run(dir, states, events) && k <= |events|
    requires Ranked(states[0].orders, start, bound) && NeverReused(start.Keys, events)
    ensures Ranked(states[k].orders, rank, bound + k) && rank.Keys == Known(start.Keys, events, k)
  {
    hide *;
    if k == 0 {
      KnownAtStart(start.Keys, events);
      rank := start;
    } else {
      DrawnOnce(start.Keys, events, k - 1);
      var before := RankOf(dir, states, events, k - 1, start, bound);
      RunStep(dir, states, events, k - 1);
      StepDescends(states[k - 1], dir, events[k - 1], states[k]);
      RankNext(states[k - 1].orders, states[k].orders, Drawn(events[k - 1]), before, bound + k - 1);
      rank := WithYoungest(before, Drawn(events[k - 1]), bound + k - 1);
    }
  }

  lemma KnownAtStart(start: set<Id>, events: seq<Event>)
    ensures Known(start, events, 0) == start
  {
  }

  lemma DrawnOnce(start: set<Id>, events: seq<Event>, k: nat)
    requires NeverReused(start, events) && k < |events|
    ensures Drawn(events[k]) !! Known(start, events, k)
    ensures Known(start, events, k + 1) == Known(start, events, k) + Drawn(events[k])
  {
    hide Drawn;
  }

  lemma {:induction false} RankedEnds(orders: map<Id, Order>, rank: map<Id, nat>, bound: nat, o: Id, n: nat)
    requires Ranked(orders, rank, bound) && (o in orders ==> rank[o] < n)
    ensures Follow(orders, o, n).None?
    decreases n
  {
    if o in orders && orders[o].movedAs.Some? {
      RankedEnds(orders, rank, bound, orders[o].movedAs.value, n - 1);
    }
  }

  /** In every run, following `moved_as` ends. */
  lemma LineageEnds(dir: Directory, states: seq<Db>, events: seq<Event>, k: nat, start: map<Id, nat>, bound: nat, o: Id)
    requires Run(dir, states, events) && k <= |events|
    requires Ranked(states[0].orders, start, bound) && NeverReused(start.Keys, events)
    ensures Follow(states[k].orders, o, bound + k).None?
  {
    hide Supplied, Leads;
    var rank := RankOf(dir, states, events, k, start, bound);
    RankedEnds(states[k].orders, rank, bound + k, o, bound + k);
  }

  // ---------------------------------------------------------------- how long a lineage can get

  const DATE_LENGTH: nat := 10

  /** A successor's barcode is its parent's and a date; every barcode is there and fits its column. */
  ghost predicate Grown(orders: map<Id, Order>) {
    forall o <- orders ::
      && 0 < |orders[o].barcode| <= BARCODE_LIMIT
      && (orders[o].movedAs.Some? && orders[o].movedAs.value in orders ==>
            |orders[o].barcode| == |orders[orders[o].movedAs.value].barcode| + DATE_LENGTH)
  }

  /** Barcodes are given when an order is registered and never edited; postponement dates are in ISO form. */
  predicate Unedited(e: Event) {
    e.op.OrderChange? ==>
      match e.op.call
      case Register(_, row) => row.barcode != ""
      case Edit(_, barcode, _) => barcode.None? || barcode.value == ""
      case Postpone(b) => |b.date| == DATE_LENGTH
      case _ => true
  }

  /** No order refers to any of these ids. */
  predicate Unreferenced(orders: map<Id, Order>, ids: set<Id>) {
    forall o <- orders :: o !in ids && (orders[o].movedAs.Some? ==> orders[o].movedAs.value !in ids)
  }

  lemma PostponedGrows(orders: map<Id, Order>, b: Batch, k: nat)
    requires ValidBatch(orders, b) && |b.date| == DATE_LENGTH && Grown(orders)
    requires Unreferenced(orders, set o | o in b.newIds)
    requires k <= |b.ids| && Postponing(orders, b, k).Some?
    ensures Grown(Postponing(orders, b, k).value)
  {
    var after := Postponing(orders, b, k).value;
    PostponingWrites(orders, b, k);
    PostponedFits(orders, b, k);
    forall o | o in after
      ensures 0 < |after[o].barcode| <= BARCODE_LIMIT
      ensures after[o].movedAs.Some? && after[o].movedAs.value in after ==>
                |after[o].barcode| == |after[after[o].movedAs.value].barcode| + DATE_LENGTH
    {
      if o !in orders {
        var i :| 0 <= i < k && Found(orders, b, i) && b.newIds[i] == o;
        assert Succeeded(orders, b, i, after);
      }
    }
  }

  lemma {:induction false} PostponedFits(orders: map<Id, Order>, b: Batch, k: nat)
    requires forall o <- orders :: |orders[o].barcode| <= BARCODE_LIMIT
    requires k <= |b.ids| == |b.newIds| && Postponing(orders, b, k).Some?
    ensures var after := Postponing(orders, b, k).value;
      forall o <- after :: |after[o].barcode| <= BARCODE_LIMIT
  {
    if k == 0 {
    } else {
      PostponedFits(orders, b, k - 1);
    }
  }

  lemma SingleCallGrows(db: Db, c: OrderCall)
    requires !c.Postpone? && Unedited(Event(OrderChange(c), 0)) && Grown(db.orders)
    requires Unreferenced(db.orders, Drawn(Event(OrderChange(c), 0)))
    ensures Grown(AfterOrderCall(db, c).orders)
  {
    hide HasWindow, Grown, FitsColumns;
    if c.Register? {
      RegisteredGrows(db.orders, c.id, OrderCalls.Registered(c.row));
    } else if c.id in db.orders {
      RowGrows(db.orders, c.id, AfterOrderCall(db, c).orders);
    }
  }

  lemma RegisteredGrows(orders: map<Id, Order>, id: Id, row: Order)
    requires Grown(orders) && row.movedAs.None? && row.barcode != "" && Unreferenced(orders, {id})
    ensures FitsColumns(orders, id, row) ==> Grown(orders[id := row])
  {
  }

  /** One row keeps its barcode and link, or is gone. */
  lemma RowGrows(orders: map<Id, Order>, id: Id, orders': map<Id, Order>)
    requires Grown(orders) && id in orders
    requires orders' == orders || orders' == orders - {id}
             || (id in orders' && orders' == orders[id := orders'[id]]
                 && orders'[id].barcode == orders[id].barcode && orders'[id].movedAs == orders[id].movedAs)
    ensures Grown(orders')
  {
  }

  lemma OrderCallGrows(db: Db, c: OrderCall)
    requires CallFits(c) && NewIds(db.orders, c) && Unedited(Event(OrderChange(c), 0)) && Grown(db.orders)
    requires Unreferenced(db.orders, Drawn(Event(OrderChange(c), 0)))
    ensures Grown(AfterOrderCall(db, c).orders)
  {
    hide Postponing, Grown;
    if c.Postpone? {
      if Postponing(db.orders, c.batch, |c.batch.ids|).Some? {
        PostponedGrows(db.orders, c.batch, |c.batch.ids|);
      }
    } else {
      SingleCallGrows(db, c);
    }
  }

  lemma KnownIdsOnly(orders: map<Id, Order>, rank: map<Id, nat>, bound: nat, drawn: set<Id>)
    requires Ranked(orders, rank, bound) && drawn !! rank.Keys
    ensures Unreferenced(orders, drawn)
  {
  }

  lemma {:induction false} StaysGrown(dir: Directory, states: seq<Db>, events: seq<Event>, k: nat,
                                      start: map<Id, nat>, bound: nat)
    requires Run(dir, states, events) && k <= |events|
    requires Ranked(states[0].orders, start, bound) && NeverReused(start.Keys, events)
    requires Grown(states[0].orders) && forall e <- events :: Unedited(e)
    ensures Grown(states[k].orders)
  {
    hide Ranked, Drawn, Grown, Supplied, Leads, Unedited, Known;
    if k == 0 {
    } else {
      StaysGrown(dir, states, events, k - 1, start, bound);
      var rank := RankOf(dir, states, events, k - 1, start, bound);
      var before, e := states[k - 1], events[k - 1];
      KnownIdsOnly(before.orders, rank, bound + k - 1, Drawn(e));
      StepStaysGrown(before, dir, e, states[k]);
    }
  }

  lemma StepStaysGrown(db: Db, dir: Directory, e: Event, next: Db)
    requires Supplied(db, e) && Leads(db, dir, e, next)
    requires Grown(db.orders) && Unedited(e) && Unreferenced(db.orders, Drawn(e))
    ensures Grown(next.orders)
  {
    hide AfterOrderCall, DuringGenerate, DuringCancel;
    if e.op.OrderChange? {
      OrderCallGrows(db, e.op.call);
    } else {
      StepMovesOnward(db, dir, e, next);
    }
  }

  lemma {:induction false} LinksAddDates(orders: map<Id, Order>, o: Id, n: nat)
    requires Grown(orders) && Follow(orders, o, n).Some?
    ensures o in orders && |orders[o].barcode| > n * DATE_LENGTH
    decreases n
  {
    if n == 0 {
    } else {
      LinksAddDates(orders, orders[o].movedAs.value, n - 1);
    }
  }

  /** While barcodes are given and never edited, no order is the result of more than nine postponements. */
  lemma AtMostNinePostponements(dir: Directory, states: seq<Db>, events: seq<Event>, k: nat,
                                start: map<Id, nat>, bound: nat, o: Id)
    requires Run(dir, states, events) && k <= |events|
    requires Ranked(states[0].orders, start, bound) && NeverReused(start.Keys, events)
    requires Grown(states[0].orders) && forall e <- events :: Unedited(e)
    ensures Follow(states[k].orders, o, 10).None?
  {
    hide Supplied, Leads, Ranked;
    StaysGrown(dir, states, events, k, start, bound);
    if Follow(states[k].orders, o, 10).Some? {
      LinksAddDates(states[k].orders, o, 10);
    }
  }

  // ---------------------------------------------------------------- barcodes stay unique

  lemma {:induction false} PostponingKeepsUnique(orders: map<Id, Order>, b: Batch, k: nat)
    requires UniqueBarcodes(orders) && k <= |b.ids| == |b.newIds| && Postponing(orders, b, k).Some?
    ensures UniqueBarcodes(Postponing(orders, b, k).value)
  {
    if k == 0 {
    } else {
      PostponingKeepsUnique(orders, b, k - 1);
    }
  }

  lemma OrderCallKeepsUnique(db: Db, c: OrderCall)
    requires UniqueBarcodes(db.orders) && CallFits(c)
    ensures UniqueBarcodes(AfterOrderCall(db, c).orders)
  {
    hide Postponing, HasWindow;
    if c.Postpone? && Postponing(db.orders, c.batch, |c.batch.ids|).Some? {
      PostponingKeepsUnique(db.orders, c.batch, |c.batch.ids|);
    }
  }

  /** In every run no two orders share a barcode. */
  lemma {:induction false} BarcodesStayUnique(dir: Directory, states: seq<Db>, events: seq<Event>, k: nat)
    requires Run(dir, states, events) && k <= |events|
    requires UniqueBarcodes(states[0].orders)
    ensures UniqueBarcodes(states[k].orders)
  {
    hide Supplied, Leads, UniqueBarcodes;
    if k == 0 {
    } else {
      BarcodesStayUnique(dir, states, events, k - 1);
      StepKeepsUnique(states[k - 1], dir, events[k - 1], states[k]);
    }
  }

  lemma StepKeepsUnique(db: Db, dir: Directory, e: Event, next: Db)
    requires Supplied(db, e) && Leads(db, dir, e, next) && UniqueBarcodes(db.orders)
    ensures UniqueBarcodes(next.orders)
  {
    hide AfterOrderCall, DuringGenerate, DuringCancel;
    if e.op.OrderChange? {
      OrderCallKeepsUnique(db, e.op.call);
    } else {
      StepMovesOnward(db, dir, e, next);
    }
  }
}
