/** The passed-shift sweep can be interrupted anywhere and run again. */
module Sweeping {
  import opened Base
  import opened Domain
  import opened Tables
  import opened Planning

  // ---------------------------------------------------------------- what a stage leaves for a new sweep

  lemma RemainingRoutes(db: Db, t: Time, rs: set<Id>)
    requires rs <= Swept(db.routes, t)
    ensures Swept(WithCancelledRoutes(db.routes, rs), t) == Swept(db.routes, t) - rs
  {
    var routes := WithCancelledRoutes(db.routes, rs);
    assert ExpiredRoutes(routes, t) == ExpiredRoutes(db.routes, t) - rs;
    if Swept(db.routes, t) == {} {
      assert rs == {};
      assert routes == db.routes;
    }
  }

  lemma SamePages(db: Db, ms: set<Id>)
    requires ms <= db.missions.Keys
    ensures var missions := WithCancelled(db.missions, ms);
      forall r :: PageOf(missions, r) == PageOf(db.missions, r)
  {
    var missions := WithCancelled(db.missions, ms);
    forall r ensures PageOf(missions, r) == PageOf(db.missions, r) {
      SamePage(db.missions, missions, r);
    }
  }

  lemma RemainingMissions(db: Db, t: Time, rs: set<Id>, ms: set<Id>, os: set<Id>)
    requires SweepProgress(db, t, rs, ms, os)
    ensures var mid := SweepState(db, rs, ms, os);
      Reached(mid, t) == Reached(db, t) - ReachedOn(db, t, rs)
  {
    hide PageOf, Swept;
    var mid := SweepState(db, rs, ms, os);
    RemainingRoutes(db, t, rs);
    SamePages(db, NotDelivered(db.missions, ms));
    forall m | m in db.missions
      ensures m in Reached(mid, t) <==> m in Reached(db, t) - ReachedOn(db, t, rs)
    {
      assert mid.missions[m].routeId == db.missions[m].routeId;
      assert PageOf(mid.missions, db.missions[m].routeId) == PageOf(db.missions, db.missions[m].routeId);
    }
  }

  lemma CancelRest(missions: map<Id, Mission>, some: set<Id>, all: set<Id>, rest: set<Id>)
    requires some <= all <= missions.Keys && rest <= all && all <= some + rest
    ensures var mid := WithCancelled(missions, NotDelivered(missions, some));
      WithCancelled(mid, NotDelivered(mid, rest)) == WithCancelled(missions, NotDelivered(missions, all))
  {
  }

  lemma ReleaseRest(missions: map<Id, Mission>, missions': map<Id, Mission>, orders: map<Id, Order>,
                    some: set<Id>, all: set<Id>, rest: set<Id>)
    requires some <= all <= missions.Keys && rest <= all && all <= some + rest
    requires missions'.Keys == missions.Keys
    requires forall m <- missions :: missions'[m].orderId == missions[m].orderId
    ensures WithUnassigned(WithUnassigned(orders, OrdersOf(missions, some)), OrdersOf(missions', rest))
         == WithUnassigned(orders, OrdersOf(missions, all))
  {
    assert OrdersOf(missions', rest) == OrdersOf(missions, rest);
    assert OrdersOf(missions, all) == OrdersOf(missions, some) + OrdersOf(missions, rest);
  }

  /**
   Restartable sweep: from any state an interrupted sweep can have committed, a new sweep with the same
   clock reaches the state of one uninterrupted sweep.
   */
  lemma SweepRestarts(db: Db, t: Time, mid: Db)
    requires DuringSweep(db, t, mid)
    ensures AfterSweep(mid, t) == AfterSweep(db, t)
  {
    var rs, ms, os :| SweepProgress(db, t, rs, ms, os) && mid == SweepState(db, rs, ms, os);
    RemainingRoutes(db, t, rs);
    RemainingMissions(db, t, rs, ms, os);
    RestOfSweep(db, t, rs, ms, os);
  }

  lemma RestOfSweep(db: Db, t: Time, rs: set<Id>, ms: set<Id>, os: set<Id>)
    requires SweepProgress(db, t, rs, ms, os)
    requires var mid := SweepState(db, rs, ms, os);
      && Swept(mid.routes, t) == Swept(db.routes, t) - rs
      && Reached(mid, t) == Reached(db, t) - ReachedOn(db, t, rs)
    ensures AfterSweep(SweepState(db, rs, ms, os), t) == AfterSweep(db, t)
  {
    hide Swept, Reached;
    var mid := SweepState(db, rs, ms, os);
    var all, rest := Reached(db, t), Reached(mid, t);
    assert all <= os + rest;
    assert WithCancelledRoutes(mid.routes, Swept(mid.routes, t)) == WithCancelledRoutes(db.routes, Swept(db.routes, t));
    CancelRest(db.missions, ms, all, rest);
    ReleaseRest(db.missions, mid.missions, db.orders, os, all, rest);
  }

  /** A further sweep with the same clock changes nothing. */
  lemma SweepIsIdempotent(db: Db, t: Time)
    ensures AfterSweep(AfterSweep(db, t), t) == AfterSweep(db, t)
  {
    var all := Reached(db, t);
    assert SweepProgress(db, t, Swept(db.routes, t), all, all);
    SweepRestarts(db, t, AfterSweep(db, t));
  }

  // ---------------------------------------------------------------- cancelling one route again

  lemma CancelSome(missions: map<Id, Mission>, some: set<Id>, all: set<Id>)
    requires some <= all
    ensures WithCancelled(WithCancelled(missions, some), all) == WithCancelled(missions, all)
  {
  }

  /** A cancellation that stopped anywhere, called again, ends where one uninterrupted call ends. */
  lemma CancelRestarts(db: Db, rid: Id, mid: Db)
    requires DuringCancel(db, rid, mid)
    ensures AfterCancel(mid, rid) == AfterCancel(db, rid)
  {
    hide PageOf, WithCancelled;
    SamePageCancelled(db, rid, {});
    if mid != db {
      var page := PageOf(db.missions, rid);
      var ms, os :| CancelProgress(db, rid, ms, os) && mid == CancelState(db, rid, ms, os);
      SamePageCancelled(db, rid, ms);
      CancelSome(db.missions, ms, page);
      SameLinksCancelled(db.missions, ms);
      ReleaseRest(db.missions, mid.missions, db.orders, os, page, page);
      assert WithCancelledRoutes(mid.routes, {rid}) == WithCancelledRoutes(db.routes, {rid});
      assert RouteReadable(mid.routes[rid]);
    }
  }

  lemma SamePageCancelled(db: Db, rid: Id, ms: set<Id>)
    requires ms <= PageOf(db.missions, rid)
    ensures PageOf(db.missions, rid) <= db.missions.Keys
    ensures PageOf(WithCancelled(db.missions, ms), rid) == PageOf(db.missions, rid)
  {
    SamePages(db, ms);
  }

  lemma SameLinksCancelled(missions: map<Id, Mission>, ms: set<Id>)
    ensures var missions' := WithCancelled(missions, ms);
      missions'.Keys == missions.Keys && forall m <- missions :: missions'[m].orderId == missions[m].orderId
  {
  }

  // ---------------------------------------------------------------- what a sweep leaves

  /** The shift of the route has ended and the route is neither finished nor cancelled. */
  predicate PastShift(r: Route, t: Time) {
    r.finish < t && r.status != RouteStatus.Finished && r.status != RouteStatus.Cancelled
  }

  /**
   No expired unfinished route remains exactly when every one of them can be read: the query that finds
   them fails as a whole otherwise, and the sweep then does nothing at all.
   */
  lemma NothingExpiredRemains(db: Db, t: Time)
    ensures (forall r <- AfterSweep(db, t).routes :: !PastShift(AfterSweep(db, t).routes[r], t))
       <==> forall r <- db.routes :: PastShift(db.routes[r], t) ==> RouteReadable(db.routes[r])
    ensures (exists r <- db.routes :: PastShift(db.routes[r], t) && !RouteReadable(db.routes[r])) ==>
              AfterSweep(db, t) == db
  {
    var expired := ExpiredRoutes(db.routes, t);
    var after := AfterSweep(db, t);
    if forall r <- expired :: RouteReadable(db.routes[r]) {
      assert ExpiredRoutes(after.routes, t) == {};
    } else {
      assert Reached(db, t) == {};
      assert after.routes == db.routes;
      assert after.missions == db.missions;
      assert OrdersOf(db.missions, {}) == {};
      assert after.orders == db.orders;
    }
  }

  /**
   A sweep cancels every mission it reaches except the DELIVERED ones; a mission delivered with delay is
   cancelled too. Every order of a reached mission ends UNASSIGNED, delivered or not.
   */
  lemma SweptMissions(db: Db, t: Time, m: Id)
    requires Linked(db) && m in db.missions
    ensures var after := AfterSweep(db, t);
      && m in after.missions && db.missions[m].orderId in after.orders
      && after.missions[m] ==
         (if m in Reached(db, t) && !IsDelivered(db.missions[m])
          then db.missions[m].(status := Some(Known(MissionStatus.Cancelled))) else db.missions[m])
      && after.orders[db.missions[m].orderId] ==
         (if m in Reached(db, t) then Restatus(db.orders[db.missions[m].orderId], OrderStatus.Unassigned)
          else db.orders[db.missions[m].orderId])
  {
    var o := db.missions[m].orderId;
    if m in Reached(db, t) {
      assert o in OrdersOf(db.missions, Reached(db, t));
    } else {
      forall m' | m' in Reached(db, t) ensures db.missions[m'].orderId != o {
      }
    }
  }
}
