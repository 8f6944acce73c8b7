/** In which order a successful courier request makes its changes durable. */
module CommitColumns {
  import opened Base
  import opened Domain
  import opened Tables
  import opened Store
  import opened CourierSpec
  import opened RequestColumns

  /** The tables once the courier's row is there. */
  function Seen(db: Db, courier: Id, rq: Request): Db {
    db.(couriers := db.couriers[courier := RowFound(db, courier, rq)])
  }

  /** The first row of a courier is committed at once. */
  function FirstRow(db: Db, courier: Id, rq: Request): seq<Db> {
    if courier in db.couriers then [] else [Seen(db, courier, rq)]
  }

  /** The tables at the end, but with this step for the courier. */
  function WithLastStep(end: Db, courier: Id, step: CourierStep): Db
    requires courier in end.couriers
  {
    end.(couriers := end.couriers[courier := CourierState(end.couriers[courier].delivered, step)])
  }

  /** A request that gets through and succeeds. */
  ghost predicate Succeeds(db: Db, dir: Directory, user: Id, rq: Request, now: Instant, m: Id) {
    && MayDrive(db, dir, user, rq) && (AtAMission(rq.step) ==> WorksOn(db, rq, m))
    && SetState(db, dir, user, rq, now).Done?
  }

  lemma SuccessfulCommits(db: Db, dir: Directory, user: Id, rq: Request, now: Instant, m: Id)
    requires Succeeds(db, dir, user, rq, now, m)
    ensures var courier := dir.courierOf[user]; var seen := Seen(db, courier, rq);
      && RouteAssigned(seen, rq.route, courier) && (NeedsOrder(rq.step) ==> MissionGiven(seen, rq))
      && var p := Process(seen, dir, user, courier, rq, now);
      && rq.route in p.db.routes && courier in p.db.couriers && courier in SetState(db, dir, user, rq, now).db.couriers
      && SetState(db, dir, user, rq, now) == Conclude(p, rq.route, courier, rq.step)
      && p.db == WithLastStep(SetState(db, dir, user, rq, now).db, courier, p.db.couriers[courier].state).(
                   routes := p.db.routes)
      && CourierCommits(db, dir, user, rq, now)
         == FirstRow(db, courier, rq)
            + (HandlerCommits(seen, dir, user, courier, rq, now)
               + [WithLastStep(SetState(db, dir, user, rq, now).db, courier, p.db.couriers[courier].state),
                  SetState(db, dir, user, rq, now).db])
    ensures AtAMission(rq.step) ==> MissionOn(db.missions, rq.order.value, rq.route) == One(m)
    ensures NeedsOrder(rq.step) <==> AtAMission(rq.step)
  {
    hide Process, HandlerCommits, MissionReadable, MissionOn;
    var courier := dir.courierOf[user];
    PassesToHandler(db, dir, user, rq, now, m);
    assert WithCourier(db, courier, rq) == Seen(db, courier, rq);
    ProcessKeepsRoute(Seen(db, courier, rq), dir, user, courier, rq, now);
    ProcessKeepsCourier(Seen(db, courier, rq), dir, user, courier, rq, now);
    RouteWriteIs(Process(Seen(db, courier, rq), dir, user, courier, rq, now), rq.route, courier, rq.step);
  }

  lemma ProcessKeepsCourier(db: Db, dir: Directory, user: Id, courier: Id, rq: Request, now: Instant)
    requires RouteAssigned(db, rq.route, courier) && (NeedsOrder(rq.step) ==> MissionGiven(db, rq))
    requires courier in db.couriers
    ensures var p := Process(db, dir, user, courier, rq, now);
      && courier in p.db.couriers
      && p.db.couriers[courier].state
         == if rq.step.FinishRoute? && p.ok then CourierStep.Idle else db.couriers[courier].state
  {
    hide MissionReadable, RouteReadable, HasWindow, NextByPosition, TotalWaiting, Incremented, OverwriteRoute, Restatus;
  }

  /** The route's write-back is the end but for the courier's step. */
  lemma RouteWriteIs(p: Progress, rid: Id, courier: Id, step: CourierStep)
    requires p.ok && rid in p.db.routes && courier in p.db.couriers
    requires RouteReadable(OverwriteRoute(p.db.routes[rid], p.route))
    ensures courier in Conclude(p, rid, courier, step).db.couriers
    ensures p.db.(routes := p.db.routes[rid := OverwriteRoute(p.db.routes[rid], p.route)])
         == WithLastStep(Conclude(p, rid, courier, step).db, courier, p.db.couriers[courier].state)
  {
    hide RouteReadable, OverwriteRoute;
    var end := Conclude(p, rid, courier, step).db;
    assert end.couriers[courier := p.db.couriers[courier]] == p.db.couriers;
  }

  /** Steps without a mission of their own, but FINISHROUTE: one write of what they change, then the step. */
  lemma PlainCommits(db: Db, dir: Directory, user: Id, rq: Request, now: Instant, m: Id)
    requires Succeeds(db, dir, user, rq, now, m)
    requires rq.step.Idle? || rq.step.ArrivedAtHub? || rq.step.StartLoading? || rq.step.StartRoute?
    ensures var courier, end := dir.courierOf[user], SetState(db, dir, user, rq, now).db;
      && courier in end.couriers
      && CourierCommits(db, dir, user, rq, now)
         == FirstRow(db, courier, rq) + [WithLastStep(end, courier, RowFound(db, courier, rq).state), end]
  {
    hide SetState, CourierCommits, MissionReadable, MissionOn, WithMissionStatus;
    SuccessfulCommits(db, dir, user, rq, now, m);
  }

  /** ARRIVEDATDELIVERY and RETURNTOHUB: the mission first. */
  lemma MissionCommits(db: Db, dir: Directory, user: Id, rq: Request, now: Instant, m: Id)
    requires Succeeds(db, dir, user, rq, now, m) && (rq.step.ArrivedAtDelivery? || rq.step.ReturnToHub?)
    ensures var courier, end := dir.courierOf[user], SetState(db, dir, user, rq, now).db;
      && courier in end.couriers
      && CourierCommits(db, dir, user, rq, now)
         == FirstRow(db, courier, rq)
            + [Seen(db, courier, rq).(missions := end.missions),
               WithLastStep(end, courier, RowFound(db, courier, rq).state), end]
  {
    hide SetState, CourierCommits, MissionReadable, MissionOn, Completed, Arrived;
    SuccessfulCommits(db, dir, user, rq, now, m);
  }

  /** UNDELIVERED: the mission, then the order. */
  lemma FailureCommitsColumns(db: Db, dir: Directory, user: Id, rq: Request, now: Instant, m: Id)
    requires Succeeds(db, dir, user, rq, now, m) && rq.step.Undelivered?
    ensures var courier, end := dir.courierOf[user], SetState(db, dir, user, rq, now).db;
            var written := Seen(db, courier, rq).(missions := end.missions);
      && courier in end.couriers
      && CourierCommits(db, dir, user, rq, now)
         == FirstRow(db, courier, rq)
            + [written, written.(orders := end.orders),
               WithLastStep(end, courier, RowFound(db, courier, rq).state), end]
  {
    hide SetState, CourierCommits, MissionReadable, MissionOn, UndeliveredMission, Restatus;
    SuccessfulCommits(db, dir, user, rq, now, m);
  }

  /** DELIVERED: the mission, then the order; the list only with the usage count, or with the route. */
  lemma DeliveryCommitsColumns(db: Db, dir: Directory, user: Id, rq: Request, now: Instant, m: Id)
    requires Succeeds(db, dir, user, rq, now, m) && rq.step.Delivered?
    ensures var courier, end := dir.courierOf[user], SetState(db, dir, user, rq, now).db;
            var written := Seen(db, courier, rq).(missions := end.missions);
      && courier in end.couriers
      && var unstepped := WithLastStep(end, courier, RowFound(db, courier, rq).state);
      CourierCommits(db, dir, user, rq, now)
      == FirstRow(db, courier, rq)
         + ([written, written.(orders := end.orders)]
            + (if user in dir.customerOf && UsageOf(db.usage, dir.customerOf[user]).One? then [unstepped] else [])
            + [unstepped, end])
  {
    hide SetState, CourierCommits, MissionReadable, MissionOn, DeliveredMission, Incremented, UsageOf;
    SuccessfulCommits(db, dir, user, rq, now, m);
    var route := db.routes[rq.route];
    assert OverwriteRoute(route, route) == route && db.routes[rq.route := route] == db.routes;
  }

  /** STARTNEXTDELIVERY: the mission, then the route once or, when there is a next mission, twice. */
  lemma NextCommits(db: Db, dir: Directory, user: Id, rq: Request, now: Instant, m: Id)
    requires Succeeds(db, dir, user, rq, now, m) && rq.step.StartNextDelivery?
    ensures var courier, end := dir.courierOf[user], SetState(db, dir, user, rq, now).db;
      && courier in end.couriers && m in db.missions
      && var unstepped := WithLastStep(end, courier, RowFound(db, courier, rq).state);
         var position := if db.missions[m].position.Some? then db.missions[m].position.value + 1 else 1;
      CourierCommits(db, dir, user, rq, now)
      == FirstRow(db, courier, rq)
         + ([Seen(db, courier, rq).(missions := end.missions)]
            + (if NextByPosition(end.missions, rq.route, position).One? then [unstepped] else [])
            + [unstepped, end])
  {
    hide SetState, CourierCommits, MissionReadable, RouteReadable, MissionOn, Completed, NextByPosition;
    SuccessfulCommits(db, dir, user, rq, now, m);
    CompletedKeepsPlace(db.missions[m], TimeOf(now));
    var courier, route := dir.courierOf[user], db.routes[rq.route];
    assert OverwriteRoute(route, route) == route && db.routes[rq.route := route] == db.routes;
    var seen := Seen(db, courier, rq);
    var p := Process(seen, dir, user, courier, rq, now);
    assert OverwriteRoute(OverwriteRoute(route, p.route), p.route) == OverwriteRoute(route, p.route);
    assert p.db.missions == db.missions[m := Completed(db.missions[m], TimeOf(now))];
    var next := NextByPosition(p.db.missions, rq.route, PositionAfter(Completed(db.missions[m], TimeOf(now))));
    assert p.ok && p == OnStartNext(seen, rq.route, route, m, now);
    assert next.One? ==> p.db.routes == db.routes[rq.route := OverwriteRoute(route, p.route)];
    assert !next.One? ==> p.db.routes == db.routes;
    assert LeavingCommits(seen, rq.route, route, m, now)
        == [seen.(missions := p.db.missions)] + if next.One? then [p.db] else [];
    var end := SetState(db, dir, user, rq, now).db;
    assert p.db.couriers == seen.couriers && end.missions == p.db.missions;
    assert next.One? ==> p.db.routes == end.routes;
    assert next.One? ==> p.db == WithLastStep(end, courier, RowFound(db, courier, rq).state);
    assert HandlerCommits(seen, dir, user, courier, rq, now) == LeavingCommits(seen, rq.route, route, m, now);
  }

  /** FINISHROUTE: an open mission, then the emptied list with IDLE, then the route, then the step over IDLE. */
  lemma FinishCommitsColumns(db: Db, dir: Directory, user: Id, rq: Request, now: Instant)
    requires Succeeds(db, dir, user, rq, now, 0) && rq.step.FinishRoute?
    ensures var courier, end := dir.courierOf[user], SetState(db, dir, user, rq, now).db;
            var written := Seen(db, courier, rq).(missions := end.missions);
      && courier in end.couriers && rq.route in db.routes
      && var idle := WithLastStep(end, courier, CourierStep.Idle);
      CourierCommits(db, dir, user, rq, now)
      == FirstRow(db, courier, rq)
         + ((if exists x: Id :: Open(db, db.routes[rq.route], x) then [written] else [])
            + [idle.(routes := db.routes), idle, end])
  {
    hide SetState, CourierCommits, MissionReadable, MissionOn, Completed, TotalWaiting;
    SuccessfulCommits(db, dir, user, rq, now, 0);
    var current := db.routes[rq.route].currentMission;
    assert (exists x: Id :: Open(db, db.routes[rq.route], x)) <==> Unfinished(db, current) by {
      if Unfinished(db, current) {
        assert Open(db, db.routes[rq.route], current.value);
      }
    }
  }
}
