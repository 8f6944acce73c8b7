/** Driving a route: what each request does on an assigned trip, and what a whole drive conserves. */
module Driving {
  import opened Base
  import opened Domain
  import opened Tables
  import opened Store
  import opened CourierSpec

  /** A courier's route with its missions in driving order and the order of each mission. */
  datatype Trip = Trip(route: Id, user: Id, courier: Id, customer: Id, usageRow: Id, missions: seq<Id>, orders: seq<Id>)

  /** The trip in the tables: positions 1..n, readable rows, orders with a delivery window. */
  ghost predicate Assigned(db: Db, dir: Directory, t: Trip) {
    && Linked(db)
    && t.user in dir.courierOf && dir.courierOf[t.user] == t.courier
    && t.user in dir.customerOf && dir.customerOf[t.user] == t.customer
    && UsageOf(db.usage, t.customer) == One(t.usageRow) && t.usageRow in db.usage
    && RouteAssigned(db, t.route, t.courier)
    && |t.missions| == |t.orders| > 0
    && (forall i :: 0 <= i < |t.missions| ==> MissionHolds(db, t, i))
    && (forall m <- db.missions :: db.missions[m].routeId == t.route ==> m in t.missions)
  }

  /** The trip is assigned to a courier who has a state row. */
  ghost predicate Holds(db: Db, dir: Directory, t: Trip) {
    Assigned(db, dir, t) && t.courier in db.couriers
  }

  predicate MissionHolds(db: Db, t: Trip, i: nat)
    requires i < |t.missions| == |t.orders|
  {
    && t.missions[i] in db.missions && MissionReadable(db.missions[t.missions[i]])
    && db.missions[t.missions[i]].routeId == t.route
    && db.missions[t.missions[i]].orderId == t.orders[i]
    && db.missions[t.missions[i]].position == Some(i + 1)
    && t.orders[i] in db.orders && HasWindow(db.orders[t.orders[i]])
  }

  lemma Distinct(db: Db, dir: Directory, t: Trip, i: nat, j: nat)
    requires Assigned(db, dir, t) && i < |t.missions| && j < |t.missions| && i != j
    ensures t.missions[i] != t.missions[j] && t.orders[i] != t.orders[j]
  {
    assert MissionHolds(db, t, i) && MissionHolds(db, t, j);
  }

  /** The mission found for an order of the trip. */
  lemma MissionFound(db: Db, dir: Directory, t: Trip, i: nat)
    requires Assigned(db, dir, t) && i < |t.missions|
    ensures MissionOn(db.missions, t.orders[i], t.route) == One(t.missions[i])
  {
    assert MissionHolds(db, t, i);
    MissionOnIs(db, t.missions[i]);
  }

  // ---------------------------------------------------------------- single requests

  function Ask(t: Trip, i: nat, step: CourierStep, undeliver: Option<UndeliverType>): Request
    requires i < |t.orders|
  {
    Request(step, t.route, Some(t.orders[i]), None, undeliver)
  }

  function Stepped(db: Db, t: Trip, step: CourierStep): Db {
    db.(couriers := WithStep(db.couriers, t.courier, step))
  }

  /** The tables after the courier reports the arrival at stop `i`. */
  function AfterArrival(db: Db, t: Trip, i: nat, now: Instant): Db
    requires i < |t.missions| == |t.orders| && MissionHolds(db, t, i)
  {
    Stepped(db, t, CourierStep.ArrivedAtDelivery).(missions := db.missions[t.missions[i] :=
      Arrived(db.missions[t.missions[i]], db.orders[t.orders[i]], TimeOf(now))])
  }

  /** The tables after stop `i` ended with a delivery (None) or with the reason it failed. */
  function AfterEnd(db: Db, t: Trip, i: nat, outcome: Option<UndeliverType>, now: Instant): Db
    requires i < |t.missions| == |t.orders| && MissionHolds(db, t, i) && t.usageRow in db.usage
  {
    var m, o := t.missions[i], t.orders[i];
    match outcome
    case None =>
      Db(db.routes,
         db.missions[m := DeliveredMission(db.missions[m], db.orders[o], None, now)],
         db.orders[o := db.orders[o].(status := OrderStatus.Delivered, actualDelivery := Some(now))],
         WithStep(WithDelivered(db.couriers, t.courier, o), t.courier, CourierStep.Delivered),
         db.usage[t.usageRow := Counted(db.usage[t.usageRow])])
    case Some(reason) =>
      Stepped(db, t, CourierStep.Undelivered).(
        missions := db.missions[m := UndeliveredMission(db.missions[m], reason, None, now)],
        orders := db.orders[o := db.orders[o].(status := OrderStatus.Postponed)])
  }

  /** The tables after the courier leaves stop `i`, for the next stop or for the hub. */
  function AfterLeaving(db: Db, t: Trip, i: nat, now: Instant): Db
    requires i < |t.missions| == |t.orders| && MissionHolds(db, t, i) && t.route in db.routes
  {
    var missions := db.missions[t.missions[i] := Completed(db.missions[t.missions[i]], TimeOf(now))];
    var route := db.routes[t.route];
    if i + 1 < |t.missions| then
      Stepped(db, t, CourierStep.StartNextDelivery).(
        missions := missions, routes := db.routes[t.route := route.(currentMission := Some(t.missions[i + 1]))])
    else
      Stepped(db, t, CourierStep.ReturnToHub).(
        missions := missions, routes := db.routes[t.route := route.(status := RouteStatus.ReturnToHub)])
  }

  /** The tables after loading started and after the route started. */
  function AfterLoading(db: Db, t: Trip, now: Instant): Db
    requires t.route in db.routes
  {
    Stepped(db, t, CourierStep.StartLoading).(
      routes := db.routes[t.route := db.routes[t.route].(status := RouteStatus.Loading, loadingStart := Some(now))])
  }

  function AfterStart(db: Db, t: Trip, now: Instant): Db
    requires t.route in db.routes && |t.missions| > 0
  {
    Stepped(db, t, CourierStep.StartRoute).(
      missions := WithMissionStatus(db.missions, t.route, Known(MissionStatus.Ongoing)),
      routes := db.routes[t.route := db.routes[t.route].(
        status := RouteStatus.Ongoing, actualStart := Some(TimeOf(now)), currentMission := Some(t.missions[0]))])
  }

  /** The tables after the finish: the courier's reset to Idle has been overwritten. */
  ghost function AfterFinish(db: Db, t: Trip, now: Instant): Db
    requires t.route in db.routes
  {
    db.(couriers := db.couriers[t.courier := CourierState([], CourierStep.FinishRoute)],
        routes := db.routes[t.route := db.routes[t.route].(
          status := RouteStatus.Finished, actualFinish := Some(TimeOf(now)),
          totalActualWaiting := Some(TotalWaiting(db.missions, t.route)))])
  }

  lemma ArrivalEffect(db: Db, dir: Directory, t: Trip, i: nat, now: Instant)
    requires Holds(db, dir, t) && i < |t.missions| && MissionHolds(db, t, i)
    ensures SetState(db, dir, t.user, Ask(t, i, CourierStep.ArrivedAtDelivery, None), now)
         == Done(AfterArrival(db, t, i, now))
  {
    MissionFound(db, dir, t, i);
    assert db.routes == db.routes[t.route := db.routes[t.route]];
  }

  lemma EndEffect(db: Db, dir: Directory, t: Trip, i: nat, outcome: Option<UndeliverType>, now: Instant)
    requires Holds(db, dir, t) && i < |t.missions| && MissionHolds(db, t, i)
    ensures SetState(db, dir, t.user, EndRequest(t, i, outcome), now) == Done(AfterEnd(db, t, i, outcome, now))
  {
    MissionFound(db, dir, t, i);
    assert db.routes == db.routes[t.route := db.routes[t.route]];
  }

  function EndRequest(t: Trip, i: nat, outcome: Option<UndeliverType>): Request
    requires i < |t.orders|
  {
    Ask(t, i, if outcome.None? then CourierStep.Delivered else CourierStep.Undelivered, outcome)
  }

  /** The mission arrived earlier on the same day, so its service time is not negative. */
  predicate ArrivedBefore(m: Mission, now: Instant) {
    m.actualArrival.Some? ==> m.actualArrival.value <= TimeOf(now)
  }

  lemma NextEffect(db: Db, dir: Directory, t: Trip, i: nat, now: Instant)
    requires Holds(db, dir, t) && i + 1 < |t.missions| && MissionHolds(db, t, i)
    requires ArrivedBefore(db.missions[t.missions[i]], now)
    ensures SetState(db, dir, t.user, Ask(t, i, CourierStep.StartNextDelivery, None), now)
         == Done(AfterLeaving(db, t, i, now))
  {
    hide Linked, HasWindow, NextByPosition, MissionOn;
    assert MissionHolds(db, t, i + 1);
    Distinct(db, dir, t, i, i + 1);
    MissionFound(db, dir, t, i);
    NextFound(db, dir, t, i, db.missions[t.missions[i] := Completed(db.missions[t.missions[i]], TimeOf(now))]);
    NextProgress(db, t.route, t.missions[i], t.missions[i + 1], now);
  }

  lemma NextProgress(db: Db, rid: Id, m: Id, next: Id, now: Instant)
    requires m in db.missions && next in db.missions && m != next && rid in db.routes
    requires MissionReadable(db.missions[m]) && MissionReadable(db.missions[next]) && RouteReadable(db.routes[rid])
    requires ArrivedBefore(db.missions[m], now)
    requires var missions := db.missions[m := Completed(db.missions[m], TimeOf(now))];
      NextByPosition(missions, rid, PositionAfter(db.missions[m])) == One(next)
    ensures var route := db.routes[rid].(currentMission := Some(next));
      OnStartNext(db, rid, db.routes[rid], m, now)
      == Progress(db.(missions := db.missions[m := Completed(db.missions[m], TimeOf(now))],
                      routes := db.routes[rid := route]), route, true)
  {
  }

  lemma NextFound(db: Db, dir: Directory, t: Trip, i: nat, missions: map<Id, Mission>)
    requires Holds(db, dir, t) && i + 1 < |t.missions|
    requires missions.Keys == db.missions.Keys
    requires forall m <- db.missions :: missions[m].routeId == db.missions[m].routeId
                                        && missions[m].position == db.missions[m].position
    ensures NextByPosition(missions, t.route, i + 2) == One(t.missions[i + 1])
  {
    var rows := AtPosition(missions, t.route, i + 2);
    assert MissionHolds(db, t, i + 1);
    forall m | m in rows ensures m == t.missions[i + 1] {
      var j :| 0 <= j < |t.missions| && t.missions[j] == m;
      assert MissionHolds(db, t, j);
    }
    assert rows == {t.missions[i + 1]};
    SoleIs(rows, t.missions[i + 1]);
  }

  lemma ReturnEffect(db: Db, dir: Directory, t: Trip, i: nat, now: Instant)
    requires Holds(db, dir, t) && i + 1 == |t.missions| && MissionHolds(db, t, i)
    requires ArrivedBefore(db.missions[t.missions[i]], now)
    ensures SetState(db, dir, t.user, Ask(t, i, CourierStep.ReturnToHub, None), now)
         == Done(AfterLeaving(db, t, i, now))
  {
    MissionFound(db, dir, t, i);
  }

  lemma LoadingEffect(db: Db, dir: Directory, t: Trip, now: Instant)
    requires Holds(db, dir, t)
    ensures SetState(db, dir, t.user, Ask(t, 0, CourierStep.StartLoading, None), now)
         == Done(AfterLoading(db, t, now))
  {
  }

  lemma StartEffect(db: Db, dir: Directory, t: Trip, now: Instant)
    requires Holds(db, dir, t) && db.routes[t.route].actualFinish.None?
    ensures SetState(db, dir, t.user, Ask(t, 0, CourierStep.StartRoute, None), now)
         == Done(AfterStart(db, t, now))
  {
    assert MissionHolds(db, t, 0);
    MissionFound(db, dir, t, 0);
  }

  lemma FinishEffect(db: Db, dir: Directory, t: Trip, now: Instant)
    requires Holds(db, dir, t)
    requires db.routes[t.route].actualStart.Some? ==> db.routes[t.route].actualStart.value < TimeOf(now)
    requires !Unfinished(db, db.routes[t.route].currentMission)
    ensures SetState(db, dir, t.user, Ask(t, 0, CourierStep.FinishRoute, None), now)
         == Done(AfterFinish(db, t, now))
  {
  }
}
