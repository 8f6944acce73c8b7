/**
 The repositories: one mutable store of tables. Every call that commits appends the state it made
 durable to `history`; calls that only execute leave their change pending until the next commit.
 */
module Store {
  import opened Base
  import opened Domain
  import opened Tables

  class Store {
    var routes: map<Id, Route>
    var missions: map<Id, Mission>
    var orders: map<Id, Order>
    var couriers: map<Id, CourierState>
    var usage: map<Id, Usage>
    const directory: Directory

    /** The committed states, oldest first. */
    ghost var history: seq<Db>

    ghost function State(): Db
      reads this
    {
      Db(routes, missions, orders, couriers, usage)
    }

    constructor (directory: Directory)
      ensures State() == Db(map[], map[], map[], map[], map[])
      ensures this.directory == directory && history == [State()]
    {
      this.directory := directory;
      routes, missions, orders, couriers, usage := map[], map[], map[], map[], map[];
      history := [Db(map[], map[], map[], map[], map[])];
    }

    // -------------------------------------------------------------- routes

    method GetRoute(id: Id) returns (r: Option<Route>)
      ensures r == if id in routes && RouteReadable(routes[id]) then Some(routes[id]) else None
    {
      r := None;
      if id in routes && RouteReadable(routes[id]) {
        r := Some(routes[id]);
      }
    }

    /** Commits first and reads the row back afterwards: `ok` is whether that read succeeds. */
    method UpdateRoute(id: Id, entity: Route) returns (ok: bool)
      modifies this
      ensures id in old(routes) ==>
                && State() == old(State()).(routes := old(routes)[id := OverwriteRoute(old(routes)[id], entity)])
                && history == old(history) + [State()]
                && ok == RouteReadable(routes[id])
      ensures id !in old(routes) ==> State() == old(State()) && history == old(history) && ok
    {
      if id !in routes {
        return true;
      }
      routes := routes[id := OverwriteRoute(routes[id], entity)];
      history := history + [State()];
      ok := RouteReadable(routes[id]);
    }

    /** Rejected, with nothing written, when the primary key is taken. */
    method CreateRoute(id: Id, entity: Route) returns (ok: bool)
      modifies this
      ensures id !in old(routes) ==>
                && State() == old(State()).(routes := old(routes)[id := entity])
                && history == old(history) + [State()]
                && ok == RouteReadable(entity)
      ensures id in old(routes) ==> State() == old(State()) && history == old(history) && !ok
    {
      if id in routes {
        return false;
      }
      routes := routes[id := entity];
      history := history + [State()];
      ok := RouteReadable(entity);
    }

    // -------------------------------------------------------------- missions

    method UpdateMission(id: Id, entity: Mission) returns (ok: bool)
      modifies this
      ensures id in old(missions) ==>
                && State() == old(State()).(missions := old(missions)[id := MergeMission(old(missions)[id], entity)])
                && history == old(history) + [State()]
                && ok == MissionReadable(missions[id])
      ensures id !in old(missions) ==> State() == old(State()) && history == old(history) && ok
    {
      if id !in missions {
        return true;
      }
      missions := missions[id := MergeMission(missions[id], entity)];
      history := history + [State()];
      ok := MissionReadable(missions[id]);
    }

    /** Rejected when the key or the order is taken, or a foreign key has no row. */
    method CreateMission(id: Id, entity: Mission) returns (ok: bool)
      modifies this
      ensures CanInsert(old(State()), id, entity) ==>
                && State() == old(State()).(missions := old(missions)[id := StoredMission(entity)])
                && history == old(history) + [State()]
                && ok == MissionReadable(entity)
      ensures !CanInsert(old(State()), id, entity) ==> State() == old(State()) && history == old(history) && !ok
    {
      if id in missions || entity.routeId !in routes || entity.orderId !in orders
         || MissionsFor(missions, entity.orderId) != {} {
        return false;
      }
      missions := missions[id := StoredMission(entity)];
      history := history + [State()];
      ok := MissionReadable(entity);
    }

    /** Executes without committing: every mission of the route shows the status, and nothing else changes. */
    method SetMissionStatusByRoute(route: Id, status: StatusText)
      modifies this`missions
      ensures missions.Keys == old(missions).Keys
      ensures forall m <- missions :: missions[m] == old(missions)[m].(status := missions[m].status)
      ensures forall m <- missions ::
                missions[m].status == if m in MissionsOf(old(missions), route) then Some(status)
                                      else old(missions)[m].status
    {
      missions := WithMissionStatus(missions, route, status);
    }

    method TotalWaitingTime(route: Id) returns (total: int)
      ensures total == TotalWaiting(missions, route)
    {
      var rest := MissionsOf(missions, route);
      total := 0;
      while rest != {}
        invariant rest <= missions.Keys
        invariant total + SumWaits(missions, rest) == TotalWaiting(missions, route)
        decreases |rest|
      {
        var m :| m in rest;
        SumWaitsTake(missions, rest, m);
        total := total + WaitOf(missions[m]);
        rest := rest - {m};
      }
    }

    // -------------------------------------------------------------- orders

    method UpdateOrder(id: Id, entity: Order)
      modifies this
      ensures id in old(orders) ==>
                && State() == old(State()).(orders := old(orders)[id := OverwriteOrder(old(orders)[id], entity)])
                && history == old(history) + [State()]
      ensures id !in old(orders) ==> State() == old(State()) && history == old(history)
    {
      if id in orders {
        orders := orders[id := OverwriteOrder(orders[id], entity)];
        history := history + [State()];
      }
    }

    /** Writes or adds a row without committing; the column limits reject it, with nothing written. */
    method FlushOrder(id: Id, row: Order) returns (ok: bool)
      modifies this`orders
      ensures ok == FitsColumns(old(orders), id, row)
      ensures orders == if ok then old(orders)[id := row] else old(orders)
    {
      ok := FitsColumns(orders, id, row);
      if ok {
        orders := orders[id := row];
      }
    }

    /** Deletes a row without committing; its missions go with it. */
    method DeleteOrder(id: Id)
      modifies this`orders, this`missions
      ensures orders == old(orders) - {id}
      ensures missions == old(missions) - MissionsFor(old(missions), id)
    {
      missions := missions - MissionsFor(missions, id);
      orders := orders - {id};
    }

    method Commit()
      modifies this`history
      ensures history == old(history) + [State()]
    {
      history := history + [State()];
    }

    // -------------------------------------------------------------- courier states

    method CreateCourierState(courier: Id, entity: CourierState)
      modifies this
      ensures State() == old(State()).(couriers := old(couriers)[courier := entity])
      ensures history == old(history) + [State()]
    {
      couriers := couriers[courier := entity];
      history := history + [State()];
    }

    method UpdateCourierState(courier: Id, state: CourierStep)
      modifies this
      ensures State() == old(State()).(couriers := WithStep(old(couriers), courier, state))
      ensures history == old(history) + [State()]
    {
      couriers := WithStep(couriers, courier, state);
      history := history + [State()];
    }

    /**
     Executes without committing. An existing row then lists the order, which it has gained at the end if it
     did not list it before; no repetition arises, and steps and other couriers stay.
     */
    method AddDeliveredOrder(courier: Id, order: Id)
      modifies this`couriers
      ensures couriers.Keys == old(couriers).Keys
      ensures forall c <- couriers :: couriers[c].state == old(couriers)[c].state
      ensures forall c <- couriers :: c != courier ==> couriers[c] == old(couriers)[c]
      ensures courier in couriers ==>
                var list, was := couriers[courier].delivered, old(couriers)[courier].delivered;
                && order in list && was <= list && |list| <= |was| + 1
                && (order in was ==> list == was)
                && (NoRepeats(was) ==> NoRepeats(list))
    {
      if courier in couriers && order !in couriers[courier].delivered {
        couriers := couriers[courier := couriers[courier].(delivered := couriers[courier].delivered + [order])];
      }
    }

    /** Executes without committing: the list of an existing row is emptied; steps and other couriers stay. */
    method ClearDeliveredOrders(courier: Id)
      modifies this`couriers
      ensures couriers.Keys == old(couriers).Keys
      ensures forall c <- couriers :: couriers[c].state == old(couriers)[c].state
      ensures forall c <- couriers ::
                couriers[c].delivered == if c == courier then [] else old(couriers)[c].delivered
    {
      if courier in couriers {
        couriers := couriers[courier := couriers[courier].(delivered := [])];
      }
    }

    // -------------------------------------------------------------- usage

    /** Commits only when the customer has exactly one usage row. */
    method IncrementDeliveryCount(customer: Id)
      modifies this
      ensures State() == old(State()).(usage := Incremented(old(usage), customer))
      ensures UsageOf(old(usage), customer).One? ==> history == old(history) + [State()]
      ensures !UsageOf(old(usage), customer).One? ==> history == old(history)
    {
      var u := UsageOf(usage, customer);
      if u.One? {
        var row := usage[u.id];
        row := row.(count := row.count + 1);
        if row.count > row.limit {
          row := row.(overage := row.count - row.limit);
        }
        usage := usage[u.id := row];
        history := history + [State()];
      }
    }

    /** Rejected, with nothing written, when the primary key is taken. */
    method CreateUsage(id: Id, entity: Usage) returns (ok: bool)
      modifies this
      ensures ok == (id !in old(usage))
      ensures State() == if ok then old(State()).(usage := old(usage)[id := entity]) else old(State())
      ensures history == old(history) + if ok then [State()] else []
    {
      ok := id !in usage;
      if ok {
        usage := usage[id := entity];
        history := history + [State()];
      }
    }

    /** Count and overage of the row are written; its limit and its customer, and every other row, stay. */
    method UpdateUsage(id: Id, entity: Usage)
      modifies this
      ensures id in old(usage) ==>
                && State() == old(State()).(usage := usage) && usage.Keys == old(usage).Keys
                && usage[id] == old(usage)[id].(count := entity.count, overage := entity.overage)
                && (forall u <- usage :: u != id ==> usage[u] == old(usage)[u])
                && history == old(history) + [State()]
      ensures id !in old(usage) ==> State() == old(State()) && history == old(history)
    {
      if id in usage {
        usage := usage[id := OverwriteUsage(usage[id], entity)];
        history := history + [State()];
      }
    }
  }

  // ---------------------------------------------------------------- what the calls write

  /** UsageRecordRepository.update leaves the limit as it is stored. */
  function OverwriteUsage(row: Usage, entity: Usage): Usage {
    row.(count := entity.count, overage := entity.overage)
  }

  const BARCODE_LIMIT: nat := 100

  /** String(100), unique. */
  predicate FitsColumns(orders: map<Id, Order>, id: Id, row: Order) {
    |row.barcode| <= BARCODE_LIMIT && forall o <- orders :: o != id ==> orders[o].barcode != row.barcode
  }

  predicate CanInsert(db: Db, id: Id, m: Mission) {
    id !in db.missions && m.routeId in db.routes && m.orderId in db.orders && MissionsFor(db.missions, m.orderId) == {}
  }

  /** MissionRepository.create stores a false `postponed` as absent. */
  function StoredMission(m: Mission): Mission {
    if m.postponed == Some(FalseText) then m.(postponed := None) else m
  }

  /** No order is listed twice. */
  predicate NoRepeats(list: seq<Id>) {
    forall a, b :: 0 <= a < b < |list| ==> list[a] != list[b]
  }

  function WithMissionStatus(missions: map<Id, Mission>, route: Id, status: StatusText): map<Id, Mission> {
    map m | m in missions ::
      if missions[m].routeId == route then missions[m].(status := Some(status)) else missions[m]
  }

  lemma OnlyRestated(was: map<Id, Mission>, missions: map<Id, Mission>, route: Id, status: StatusText)
    requires missions.Keys == was.Keys
    requires forall m <- was :: missions[m] == was[m].(status := missions[m].status)
    requires forall m <- was ::
               missions[m].status == if m in MissionsOf(was, route) then Some(status) else was[m].status
    ensures missions == WithMissionStatus(was, route, status)
  {
  }

  function WithStep(couriers: map<Id, CourierState>, courier: Id, step: CourierStep): map<Id, CourierState> {
    if courier in couriers then couriers[courier := couriers[courier].(state := step)] else couriers
  }

  function WithDelivered(couriers: map<Id, CourierState>, courier: Id, order: Id): map<Id, CourierState> {
    if courier in couriers && order !in couriers[courier].delivered then
      couriers[courier := couriers[courier].(delivered := couriers[courier].delivered + [order])]
    else couriers
  }

  /** Gaining the order when it is not listed yet is all that can have happened. */
  lemma OnlyAdded(was: map<Id, CourierState>, couriers: map<Id, CourierState>, courier: Id, order: Id)
    requires couriers.Keys == was.Keys
    requires forall c <- was :: couriers[c].state == was[c].state && (c != courier ==> couriers[c] == was[c])
    requires courier in was ==>
               var list, before := couriers[courier].delivered, was[courier].delivered;
               && order in list && before <= list && |list| <= |before| + 1 && (order in before ==> list == before)
    ensures couriers == WithDelivered(was, courier, order)
  {
    if courier in was {
      var list, before := couriers[courier].delivered, was[courier].delivered;
      if order !in before {
        assert list == before + [order];
      }
    }
  }

  function WithoutDelivered(couriers: map<Id, CourierState>, courier: Id): map<Id, CourierState> {
    if courier in couriers then couriers[courier := couriers[courier].(delivered := [])] else couriers
  }

  lemma OnlyCleared(was: map<Id, CourierState>, couriers: map<Id, CourierState>, courier: Id)
    requires couriers.Keys == was.Keys
    requires forall c <- was :: couriers[c].state == was[c].state
                                && couriers[c].delivered == if c == courier then [] else was[c].delivered
    ensures couriers == WithoutDelivered(was, courier)
  {
  }

  function Counted(u: Usage): Usage {
    var count := u.count + 1;
    u.(count := count, overage := if count > u.limit then count - u.limit else u.overage)
  }

  function Incremented(usage: map<Id, Usage>, customer: Id): map<Id, Usage> {
    var u := UsageOf(usage, customer);
    if u.One? && u.id in usage then usage[u.id := Counted(usage[u.id])] else usage
  }
}
