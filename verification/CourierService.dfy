/** The courier state service: the handlers write through the repositories, one commit at a time. */
module CourierService {
  import opened Base
  import opened Domain
  import opened Tables
  import opened Store
  import opened CourierSpec
  import opened Planning
  import Billing

  class CourierStateService {
    const store: Store
    const billing: Billing.BillingService

    constructor (store: Store, billing: Billing.BillingService)
      requires billing.store == store
      ensures this.store == store && this.billing == billing
    {
      this.store := store;
      this.billing := billing;
    }

    /** Nothing is pending: the last commit is the state of the tables, which the billing service shares. */
    ghost predicate Settled()
      reads store
    {
      billing.store == store && |store.history| > 0 && store.history[|store.history| - 1] == store.State()
    }

    /** An exception leaves exactly what was committed before it; nothing is ever left pending. */
    method SetCourierState(user: Id, rq: Request, now: Instant) returns (ok: bool)
      requires Settled()
      modifies store
      ensures var r := SetState(old(store.State()), store.directory, user, rq, now);
              store.State() == r.db && ok == r.Done?
      ensures store.history == old(store.history) + CourierCommits(old(store.State()), store.directory, user, rq, now)
      ensures Settled()
    {
      hide RouteReadable, MissionReadable, Process, Conclude, HandlerCommits, ConcludeCommits;
      if user !in store.directory.courierOf {
        return false;
      }
      var courier := store.directory.courierOf[user];
      if courier !in store.couriers {
        store.CreateCourierState(
          courier, CourierState(if rq.order.Some? then [rq.order.value] else [], rq.step));
      }
      var read := store.GetRoute(rq.route);
      if read.None? || read.value.courierId != courier {
        return false;
      }
      if NeedsOrder(rq.step) {
        if rq.order.None? || rq.order.value !in store.orders {
          return false;
        }
        var m := MissionOn(store.missions, rq.order.value, rq.route);
        if !m.One? || !MissionReadable(store.missions[m.id]) {
          return false;
        }
      }
      ok := Advance(user, courier, rq, read.value, now);
    }

    /** The request once everything it names was found. */
    method Advance(user: Id, courier: Id, rq: Request, entity: Route, now: Instant) returns (ok: bool)
      requires RouteAssigned(store.State(), rq.route, courier) && entity == store.routes[rq.route]
      requires NeedsOrder(rq.step) ==> MissionGiven(store.State(), rq)
      requires Settled()
      modifies store
      ensures var p := Process(old(store.State()), store.directory, user, courier, rq, now);
              var r := Conclude(p, rq.route, courier, rq.step);
              store.State() == r.db && ok == r.Done?
      ensures store.history == old(store.history)
                               + HandlerCommits(old(store.State()), store.directory, user, courier, rq, now)
                               + ConcludeCommits(Process(old(store.State()), store.directory, user, courier, rq, now),
                                                 rq.route, courier, rq.step)
      ensures Settled()
    {
      hide RouteReadable, MissionReadable, Process, HandlerCommits, WithStep;
      ProcessKeepsRoute(store.State(), store.directory, user, courier, rq, now);
      var route;
      if NeedsOrder(rq.step) {
        ok, route := HandleMissionStep(user, courier, rq, entity, now);
      } else {
        ok, route := HandleRouteStep(user, courier, rq, entity, now);
      }
      if ok {
        ok := store.UpdateRoute(rq.route, route);
        if ok {
          store.UpdateCourierState(courier, rq.step);
        }
      }
    }

    method HandleRouteStep(ghost user: Id, courier: Id, rq: Request, entity: Route, now: Instant)
      returns (ok: bool, route: Route)
      requires RouteAssigned(store.State(), rq.route, courier) && entity == store.routes[rq.route]
      requires !NeedsOrder(rq.step) && Settled()
      modifies store
      ensures Process(old(store.State()), store.directory, user, courier, rq, now)
           == Progress(store.State(), route, ok)
      ensures store.history == old(store.history)
                               + HandlerCommits(old(store.State()), store.directory, user, courier, rq, now)
      ensures Settled()
    {
      hide RouteReadable, MissionReadable;
      ok, route := true, entity;
      if rq.step.ArrivedAtHub? {
        route := route.(arrivedAtHub := Some(now));
      } else if rq.step.StartLoading? {
        route := route.(status := RouteStatus.Loading, loadingStart := Some(now));
      } else if rq.step.FinishRoute? {
        ok, route := HandleFinishRoute(rq.route, entity, courier, now);
      }
    }

    method HandleMissionStep(user: Id, courier: Id, rq: Request, entity: Route, now: Instant)
      returns (ok: bool, route: Route)
      requires RouteAssigned(store.State(), rq.route, courier) && entity == store.routes[rq.route]
      requires NeedsOrder(rq.step) && MissionGiven(store.State(), rq) && Settled()
      modifies store
      ensures Process(old(store.State()), store.directory, user, courier, rq, now)
           == Progress(store.State(), route, ok)
      ensures Settled() || (ok && rq.step in {CourierStep.StartRoute, CourierStep.Delivered})
      ensures store.history == old(store.history)
                               + HandlerCommits(old(store.State()), store.directory, user, courier, rq, now)
    {
      hide RouteReadable, HasWindow, WithMissionStatus, WithDelivered, OnArrival, OnDelivered, OnUndelivered,
        OnStartNext, ArrivalCommits, DeliveryCommits, FailureCommits, LeavingCommits;
      ok, route := true, entity;
      var o := rq.order.value;
      var m := MissionOn(store.missions, o, rq.route).id;
      if rq.step.StartRoute? {
        route := route.(status := RouteStatus.Ongoing, actualStart := Some(TimeOf(now)), currentMission := Some(m));
        ghost var missions := store.missions;
        store.SetMissionStatusByRoute(rq.route, Known(MissionStatus.Ongoing));
        OnlyRestated(missions, store.missions, rq.route, Known(MissionStatus.Ongoing));
      } else if rq.step.ArrivedAtDelivery? {
        ok := HandleArrivedAtDelivery(entity, m, o, now);
      } else if rq.step.Delivered? {
        ok := HandleDelivered(user, courier, entity, m, o, rq.comment, now);
      } else if rq.step.Undelivered? {
        ok := HandleUndelivered(entity, m, o, rq, now);
      } else if rq.step.StartNextDelivery? {
        ok, route := HandleStartNextDelivery(rq.route, entity, m, now);
      } else {
        route := route.(status := RouteStatus.ReturnToHub);
        var mission := CompleteMission(MissionEntity(store.missions[m]), now);
        ok := store.UpdateMission(m, mission);
      }
    }

    /** CourierStateService._complete_mission on the entity. */
    method CompleteMission(entity: Mission, now: Instant) returns (mission: Mission)
      ensures FinishedAt(entity, mission, TimeOf(now))
      ensures mission == Completed(entity, TimeOf(now))
    {
      mission := entity.(actualFinish := Some(TimeOf(now)));
      if mission.actualArrival.Some? {
        mission := mission.(
          actualServiceTime := Some(Whole(mission.actualFinish.value - mission.actualArrival.value, SECOND)));
      }
    }

    method HandleArrivedAtDelivery(ghost route: Route, m: Id, o: Id, now: Instant) returns (ok: bool)
      requires m in store.missions && o in store.orders && Settled()
      modifies store
      ensures OnArrival(old(store.State()), route, m, o, now) == Progress(store.State(), route, ok)
      ensures store.history == old(store.history) + ArrivalCommits(old(store.State()), route, m, o, now)
      ensures Settled()
    {
      var mission, order := MissionEntity(store.missions[m]), OrderEntity(store.orders[o]);
      if order.earliest.None? {
        return false;
      }
      mission := mission.(actualArrival := Some(TimeOf(now)));
      if TimeOf(now) < order.earliest.value {
        mission := mission.(actualWaiting := Some(Whole(order.earliest.value - TimeOf(now), MINUTE)));
      } else {
        mission := mission.(actualWaiting := Some(0));
      }
      ok := store.UpdateMission(m, mission);
    }

    method HandleDelivered(user: Id, courier: Id, ghost route: Route, m: Id, o: Id, comment: Option<string>,
                           now: Instant)
      returns (ok: bool)
      requires m in store.missions && o in store.orders && Settled()
      modifies store
      ensures OnDelivered(old(store.State()), store.directory, user, courier, route, m, o, comment, now)
           == Progress(store.State(), route, ok)
      ensures store.history == old(store.history)
                               + DeliveryCommits(old(store.State()), store.directory, user, courier, route, m, o,
                                                 comment, now)
      ensures ok || Settled()
    {
      hide MissionReadable, WithDelivered, Incremented;
      var mission, order := MissionEntity(store.missions[m]), OrderEntity(store.orders[o]);
      mission := mission.(status := Some(Known(MissionStatus.Delivered)), deliveryScan := Some(now),
                          comment := comment);
      if order.latest.None? {
        return false;
      }
      if TimeOf(now) > order.latest.value {
        mission := mission.(status := Some(Known(MissionStatus.DeliveredWithDelay)));
      }
      order := order.(status := OrderStatus.Delivered, actualDelivery := Some(now));
      ok := store.UpdateMission(m, mission);
      if ok {
        store.UpdateOrder(o, order);
        ghost var couriers := store.couriers;
        store.AddDeliveredOrder(courier, o);
        OnlyAdded(couriers, store.couriers, courier, o);
        billing.RecordDelivery(user);
      }
    }

    method HandleUndelivered(ghost route: Route, m: Id, o: Id, rq: Request, now: Instant) returns (ok: bool)
      requires m in store.missions && o in store.orders && Settled()
      modifies store
      ensures OnUndelivered(old(store.State()), route, m, o, rq, now) == Progress(store.State(), route, ok)
      ensures store.history == old(store.history) + FailureCommits(old(store.State()), route, m, o, rq, now)
      ensures Settled()
    {
      if rq.undeliver.None? {
        return false;
      }
      var mission, order := MissionEntity(store.missions[m]), OrderEntity(store.orders[o]);
      mission := mission.(status := Some(Reason(rq.undeliver.value)), deliveryScan := Some(now),
                          comment := rq.comment, postponed := Some(Reported(rq.undeliver.value)));
      order := order.(status := OrderStatus.Postponed);
      ok := store.UpdateMission(m, mission);
      if ok {
        store.UpdateOrder(o, order);
      }
    }

    method HandleStartNextDelivery(rid: Id, entity: Route, m: Id, now: Instant) returns (ok: bool, route: Route)
      requires m in store.missions && rid in store.routes && Settled()
      modifies store
      ensures OnStartNext(old(store.State()), rid, entity, m, now) == Progress(store.State(), route, ok)
      ensures store.history == old(store.history) + LeavingCommits(old(store.State()), rid, entity, m, now)
      ensures m in store.missions && FinishedAt(old(store.missions)[m], store.missions[m], TimeOf(now))
      ensures Settled()
    {
      route := entity;
      var mission := CompleteMission(MissionEntity(store.missions[m]), now);
      ok := store.UpdateMission(m, mission);
      if ok {
        var next := NextByPosition(store.missions, rid, PositionAfter(store.missions[m]));
        if next.Many? || (next.One? && !MissionReadable(store.missions[next.id])) {
          return false, entity;
        }
        if next.One? {
          route := route.(currentMission := Some(next.id));
          ok := store.UpdateRoute(rid, route);
        }
      }
    }

    method HandleFinishRoute(rid: Id, entity: Route, courier: Id, now: Instant) returns (ok: bool, route: Route)
      requires Settled()
      modifies store
      ensures OnFinish(old(store.State()), rid, entity, courier, now) == Progress(store.State(), route, ok)
      ensures store.history == old(store.history) + FinishCommits(old(store.State()), rid, entity, courier, now)
      ensures Unfinished(old(store.State()), entity.currentMission) ==>
                var m := entity.currentMission.value;
                m in store.missions && FinishedAt(old(store.missions)[m], store.missions[m], TimeOf(now))
      ensures Settled()
    {
      hide MissionReadable, WithoutDelivered, WithStep, TotalWaiting;
      ok, route := true, entity;
      if entity.currentMission.Some? && entity.currentMission.value in store.missions
         && MissionReadable(store.missions[entity.currentMission.value]) {
        var m := entity.currentMission.value;
        var mission := MissionEntity(store.missions[m]);
        if mission.actualFinish.None? {
          mission := CompleteMission(mission, now);
          ok := store.UpdateMission(m, mission);
          if !ok {
            return;
          }
        }
      }
      var total := store.TotalWaitingTime(rid);
      route := route.(status := RouteStatus.Finished, actualFinish := Some(TimeOf(now)),
                      totalActualWaiting := Some(total));
      ghost var couriers := store.couriers;
      store.ClearDeliveredOrders(courier);
      OnlyCleared(couriers, store.couriers, courier);
      store.UpdateCourierState(courier, CourierStep.Idle);
    }

    /** Marks one parcel as loaded and counts those of the route that are not. */
    method SetParcelLoading(rid: Id, barcode: string, now: Instant) returns (remaining: Option<nat>)
      requires Settled()
      modifies store
      ensures var r := Scan(old(store.State()), rid, barcode, now);
              store.State() == r.db
              && remaining == (if r.Done? then Some(|Unscanned(store.missions, rid)|) else None)
              && store.history == old(store.history) + if r.Done? then [store.State()] else []
      ensures Settled()
    {
      var route := store.GetRoute(rid);
      var o := OrderByBarcode(store.orders, barcode);
      if route.None? || !o.One? || store.orders[o.id].status == OrderStatus.Cancelled {
        return None;
      }
      var m := MissionOn(store.missions, o.id, rid);
      if !m.One? || !MissionReadable(store.missions[m.id]) {
        return None;
      }
      var mission := MissionEntity(store.missions[m.id]).(loadingScan := Some(now));
      var _ := store.UpdateMission(m.id, mission);
      remaining := Some(|Unscanned(store.missions, rid)|);
    }

    /** `fetched` is the order in which the database returns the requested orders that exist. */
    method StartRouteSelfManaged(user: Id, rid: Id, requested: seq<Id>, fetched: seq<Id>, now: Instant)
      returns (ok: bool)
      requires FetchedRows(store.orders, requested, fetched)
      requires Settled()
      modifies store
      ensures fetched == [] ==> !ok && store.State() == old(store.State())
      ensures fetched != [] ==>
                var r := SelfManaged(old(store.State()), store.directory, user, rid, requested,
                                     BarcodesOf(old(store.orders), fetched), now);
                && store.State() == r.db && ok == r.Done?
                && store.history == old(store.history)
                                    + SelfManagedCommits(old(store.State()), store.directory, user, rid, requested,
                                                         BarcodesOf(old(store.orders), fetched), now)
      ensures Settled() && old(store.history) <= store.history
    {
      hide Scan, CourierCommits, SetState;
      if fetched == [] {
        return false;
      }
      ghost var before := store.State();
      var barcodes := BarcodesOf(store.orders, fetched);
      var i := 0;
      while i < |barcodes|
        invariant 0 <= i <= |barcodes|
        invariant Settled() && old(store.history) <= store.history
        invariant ScanAll(before, rid, barcodes, now) == ScanAll(store.State(), rid, barcodes[i..], now)
        invariant old(store.history) + ScanCommits(before, rid, barcodes, now)
               == store.history + ScanCommits(store.State(), rid, barcodes[i..], now)
      {
        var remaining := SetParcelLoading(rid, barcodes[i], now);
        if remaining.None? {
          return false;
        }
        i := i + 1;
      }
      assert fetched[0] in requested;
      assert barcodes[i..] == [];
      ghost var scans := ScanCommits(before, rid, barcodes, now);
      assert store.history == old(store.history) + scans;
      ok := SetCourierState(user, Request(CourierStep.StartRoute, rid, Some(requested[0]), None, None), now);
    }
  }
}
