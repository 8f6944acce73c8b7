/** Sweeping, cancelling and generating, column by column: which rows are taken along, refused or written. */
module PlanningColumns {
  import opened Base
  import opened Domain
  import opened Tables
  import opened Store
  import opened CourierSpec
  import opened CourierFrame
  import opened SolverOutput
  import opened Planning
  import opened PlanPartition
  import opened OrderCalls
  import opened Lifecycle
  import opened Registered
  import opened Sweeping
  import Billing

  // ---------------------------------------------------------------- sweeping and cancelling

  /** The mission is among the first hundred of its route, and all of these can be read. */
  ghost predicate TakenAlong(missions: map<Id, Mission>, m: Id) {
    && m in missions && m in FirstPage(missions, missions[m].routeId)
    && forall x <- FirstPage(missions, missions[m].routeId) :: x in missions && MissionReadable(missions[x])
  }

  /** The missions a sweep takes along with the routes past their shift. */
  ghost function SweptAlong(db: Db, t: Time): (rows: set<Id>)
    ensures rows <= db.missions.Keys
  {
    set m | m in db.missions && TakenAlong(db.missions, m) && db.missions[m].routeId in db.routes
            && PastShift(db.routes[db.missions[m].routeId], t)
  }

  /** The missions a cancellation takes along with its route. */
  ghost function CancelledAlong(db: Db, rid: Id): (rows: set<Id>)
    ensures rows <= db.missions.Keys
  {
    set m | m in db.missions && TakenAlong(db.missions, m) && db.missions[m].routeId == rid
  }

  ghost predicate AllPastShiftReadable(routes: map<Id, Route>, t: Time) {
    forall r <- routes :: PastShift(routes[r], t) ==> RouteReadable(routes[r])
  }

  /** The orders of the missions `rows` are released; all others are as they were. */
  ghost predicate OnlyReleased(db: Db, orders: map<Id, Order>, rows: set<Id>)
    requires rows <= db.missions.Keys
  {
    && orders.Keys == db.orders.Keys
    && forall o <- db.orders ::
         if exists m <- rows :: db.missions[m].orderId == o then
           RestatedTo(db.orders[o], orders[o], OrderStatus.Unassigned)
         else orders[o] == db.orders[o]
  }

  lemma PageIsTaken(missions: map<Id, Mission>, m: Id)
    requires m in missions
    ensures m in PageOf(missions, missions[m].routeId) <==> TakenAlong(missions, m)
  {
  }

  lemma ReachedIsSweptAlong(db: Db, t: Time)
    requires AllPastShiftReadable(db.routes, t)
    ensures Reached(db, t) == SweptAlong(db, t)
  {
    hide RouteReadable, PageOf, TakenAlong;
    forall m | m in db.missions ensures m in Reached(db, t) <==> m in SweptAlong(db, t) {
      PageIsTaken(db.missions, m);
    }
  }

  lemma PageIsCancelledAlong(db: Db, rid: Id)
    ensures PageOf(db.missions, rid) == CancelledAlong(db, rid)
  {
    forall m | m in db.missions && db.missions[m].routeId == rid
      ensures m in PageOf(db.missions, rid) <==> TakenAlong(db.missions, m)
    {
      PageIsTaken(db.missions, m);
    }
  }

  lemma ReleasedColumns(db: Db, rows: set<Id>)
    requires rows <= db.missions.Keys
    ensures OnlyReleased(db, WithUnassigned(db.orders, OrdersOf(db.missions, rows)), rows)
  {
    hide Restatus, RestatedTo;
    forall o | o in db.orders
      ensures o in OrdersOf(db.missions, rows) <==> exists m <- rows :: db.missions[m].orderId == o
      ensures RestatedTo(db.orders[o], Restatus(db.orders[o], OrderStatus.Unassigned), OrderStatus.Unassigned)
    {
      RestatusColumns(db.orders[o], OrderStatus.Unassigned);
    }
  }

  /**
   A sweep at time of day `t`, when the routes whose shift has ended can all be read: exactly these routes are
   cancelled; of the missions they take along all but the DELIVERED ones are cancelled; and the orders of all
   these missions are released. No route past its shift is then left unfinished.
   */
  lemma SweepColumns(db: Db, t: Time)
    requires AllPastShiftReadable(db.routes, t)
    ensures var after := AfterSweep(db, t);
      && after.routes.Keys == db.routes.Keys
      && (forall r <- db.routes ::
            after.routes[r] == if PastShift(db.routes[r], t) then db.routes[r].(status := RouteStatus.Cancelled)
                               else db.routes[r])
      && (forall r <- after.routes :: after.routes[r].finish < t ==>
            after.routes[r].status == RouteStatus.Finished || after.routes[r].status == RouteStatus.Cancelled)
      && after.missions.Keys == db.missions.Keys
      && (forall m <- db.missions ::
            after.missions[m] == if m in SweptAlong(db, t)
                                    && db.missions[m].status != Some(Known(MissionStatus.Delivered))
                                 then db.missions[m].(status := Some(Known(MissionStatus.Cancelled)))
                                 else db.missions[m])
      && OnlyReleased(db, after.orders, SweptAlong(db, t))
      && after.couriers == db.couriers && after.usage == db.usage
  {
    hide Reached, SweptAlong, OnlyReleased, WithUnassigned, RouteReadable;
    ReachedIsSweptAlong(db, t);
    ReleasedColumns(db, Reached(db, t));
  }

  /** One route past its shift that cannot be read keeps the sweep from doing anything. */
  lemma UnreadableStopsTheSweep(db: Db, t: Time)
    requires !AllPastShiftReadable(db.routes, t)
    ensures AfterSweep(db, t) == db
  {
    hide RouteReadable, PageOf;
    assert Swept(db.routes, t) == {} by {
      var r :| r in db.routes && PastShift(db.routes[r], t) && !RouteReadable(db.routes[r]);
      assert r in ExpiredRoutes(db.routes, t);
    }
    assert Reached(db, t) == {};
    assert OrdersOf(db.missions, {}) == {};
    assert WithUnassigned(db.orders, {}) == db.orders && WithCancelledRoutes(db.routes, {}) == db.routes;
    assert NotDelivered(db.missions, {}) == {} && WithCancelled(db.missions, {}) == db.missions;
  }

  /**
   Cancelling a route that can be read, whatever its status: the route is cancelled, the missions it takes along
   are cancelled, delivered or not, and their orders released. A route that is missing or unreadable is refused.
   */
  lemma CancelColumns(db: Db, rid: Id)
    ensures var after := AfterCancel(db, rid);
      if rid in db.routes && RouteReadable(db.routes[rid]) then
        && after.routes == db.routes[rid := db.routes[rid].(status := RouteStatus.Cancelled)]
        && after.missions.Keys == db.missions.Keys
        && (forall m <- db.missions ::
              after.missions[m] == if m in CancelledAlong(db, rid)
                                   then db.missions[m].(status := Some(Known(MissionStatus.Cancelled)))
                                   else db.missions[m])
        && OnlyReleased(db, after.orders, CancelledAlong(db, rid))
        && after.couriers == db.couriers && after.usage == db.usage
      else after == db
  {
    hide OnlyReleased, WithUnassigned, RouteReadable, CancelledAlong, PageOf;
    PageIsCancelledAlong(db, rid);
    ReleasedColumns(db, PageOf(db.missions, rid));
  }
}
