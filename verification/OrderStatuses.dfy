/** The life of an order: which calls move it from one status to another, in every run. */
module OrderStatuses {
  import opened Base
  import opened Domain
  import opened Tables
  import opened Store
  import opened CourierSpec
  import opened CourierFrame
  import opened RequestColumns
  import opened SolverOutput
  import opened Planning
  import opened PlanningColumns
  import opened GenerationColumns
  import opened OrderCalls
  import opened Lifecycle
  import opened Registered
  import opened Sweeping
  import opened Postponement

  /** A sweep at this instant takes along the mission of the order. */
  ghost predicate SweptAway(db: Db, now: Instant, o: Id) {
    exists m <- SweptAlong(db, TimeOf(now)) :: db.missions[m].orderId == o
  }

  predicate IsGeneration(e: Event) {
    e.op.Generate? || e.op.GenerateInterrupted?
  }

  predicate IsCancellation(e: Event) {
    e.op.Cancel? || e.op.CancelInterrupted?
  }

  /** The courier reports this step for this order. */
  predicate Reports(e: Event, step: CourierStep, o: Id) {
    ByCourier(e) && e.op.request.step == step && e.op.request.order == Some(o)
  }

  /** Whether the event can move order `o` to a status it has not. */
  ghost predicate CanMove(db: Db, e: Event, o: Id, to: OrderStatus)
    requires o in db.orders
  {
    match to
    case Registered => false
    case Scheduled =>
      && IsGeneration(e) && o in e.op.g.fetched
      && (db.orders[o].status.Registered? || db.orders[o].status.Unassigned? || SweptAway(db, e.at, o))
    case Unassigned =>
      || (IsGeneration(e) && (o in e.op.g.fetched || SweptAway(db, e.at, o)))
      || (IsCancellation(e) && exists m <- CancelledAlong(db, e.op.route) :: db.missions[m].orderId == o)
    case Delivered =>
      || Reports(e, CourierStep.Delivered, o)
      || (e.op.OrderChange? && e.op.call.MarkDelivered? && e.op.call.id == o)
    case Postponed =>
      || Reports(e, CourierStep.Undelivered, o)
      || (e.op.OrderChange? && e.op.call.Postpone? && o in e.op.call.batch.ids)
    case Cancelled =>
      && e.op.OrderChange? && (e.op.call.MarkCancelled? || e.op.call.Remove?) && e.op.call.id == o
      && (e.op.call.Remove? ==> db.orders[o].status.Postponed? || db.orders[o].status.Unassigned?)
  }

  /** Every order that is still there has the status it had, or one the event can move it to. */
  ghost predicate OnlyMoves(db: Db, e: Event, next: Db) {
    forall o <- db.orders ::
      o in next.orders && next.orders[o].status != db.orders[o].status ==> CanMove(db, e, o, next.orders[o].status)
  }

  /** Orders that changed their status were released, and belong to the given missions. */
  lemma ReleasedStatuses(db: Db, rows: set<Id>, o: Id)
    requires rows <= db.missions.Keys && o in db.orders
    ensures var orders := WithUnassigned(db.orders, OrdersOf(db.missions, rows));
      && o in orders
      && (orders[o].status != db.orders[o].status ==>
            orders[o].status.Unassigned? && exists m <- rows :: db.missions[m].orderId == o)
  {
  }

  lemma SweepMoves(db: Db, now: Instant, mid: Db, o: Id)
    requires DuringSweep(db, TimeOf(now), mid) && o in db.orders
    ensures o in mid.orders
    ensures mid.orders[o].status != db.orders[o].status ==> mid.orders[o].status.Unassigned? && SweptAway(db, now, o)
  {
    hide WithUnassigned, OrdersOf, SweptAlong;
    var t := TimeOf(now);
    var rs, ms, os :| SweepProgress(db, t, rs, ms, os) && mid == SweepState(db, rs, ms, os);
    ReleasedStatuses(db, os, o);
    if AllPastShiftReadable(db.routes, t) {
      ReachedIsSweptAlong(db, t);
    } else {
      UnreadableReachesNothing(db, t);
    }
  }

  lemma UnreadableReachesNothing(db: Db, t: Time)
    requires !AllPastShiftReadable(db.routes, t)
    ensures Reached(db, t) == {}
  {
    hide RouteReadable, PageOf;
    var r :| r in db.routes && PastShift(db.routes[r], t) && !RouteReadable(db.routes[r]);
    assert r in ExpiredRoutes(db.routes, t);
  }

  lemma PlanMoves(db: Db, dir: Directory, g: Generation, now: Instant, mid: Db, o: Id)
    requires Decide(db, dir, g).Persist? && DuringPersist(db, Decide(db, dir, g).plan, now, mid) && o in db.orders
    ensures o in mid.orders
    ensures mid.orders[o].status != db.orders[o].status ==>
              && o in g.fetched
              && (mid.orders[o].status.Unassigned?
                  || (mid.orders[o].status.Scheduled?
                      && (db.orders[o].status.Registered? || db.orders[o].status.Unassigned?)))
  {
    hide Decide, PersistState, WithMissions, CheckLive, RouteUnderWay, LimitAllows, GoodVisit, RouteReadable;
    var plan := Decide(db, dir, g).plan;
    RefusedExactly(db, dir, g);
    DecidedColumns(db, dir, g);
    var k: nat :| k <= 1 + |plan.orders| + |plan.missions| && mid == PersistState(db, plan, now, k);
    var i, j := StageForm(db, plan, now, k);
    MissionsLeaveOrders(WithRoute(db, plan, now).(orders := WithStatuses(db.orders, plan, i)), plan.missions, j);
    assert mid.orders == WithStatuses(db.orders, plan, i);
    if o in plan.orders[..i] {
      assert o in plan.orders;
    }
  }

  lemma GenerationMoves(db: Db, dir: Directory, g: Generation, now: Instant, mid: Db, o: Id)
    requires DuringGenerate(db, dir, g, now, mid) && o in db.orders && o in mid.orders
    ensures mid.orders[o].status != db.orders[o].status ==>
              || (mid.orders[o].status.Unassigned? && (o in g.fetched || SweptAway(db, now, o)))
              || (mid.orders[o].status.Scheduled? && o in g.fetched
                  && (db.orders[o].status.Registered? || db.orders[o].status.Unassigned? || SweptAway(db, now, o)))
  {
    hide Decide, DuringSweep, DuringPersist, SweptAway, AfterSweep;
    var t := TimeOf(now);
    var db1 := AfterSweep(db, t);
    SweepIsStage(db, t);
    SweepMoves(db, now, db1, o);
    if DuringSweep(db, t, mid) {
      SweepMoves(db, now, mid, o);
    } else if Decide(db1, dir, g).Persist? {
      PlanMoves(db1, dir, g, now, mid, o);
    }
  }

  lemma CancelMoves(db: Db, rid: Id, mid: Db, o: Id)
    requires DuringCancel(db, rid, mid) && o in db.orders && o in mid.orders
    ensures mid.orders[o].status != db.orders[o].status ==>
              mid.orders[o].status.Unassigned? && exists m <- CancelledAlong(db, rid) :: db.missions[m].orderId == o
  {
    hide PageOf, RouteReadable, CancelledAlong, WithUnassigned, OrdersOf;
    PageIsCancelledAlong(db, rid);
    if mid != db {
      var ms, os :| CancelProgress(db, rid, ms, os) && mid == CancelState(db, rid, ms, os);
      ReleasedStatuses(db, os, o);
    }
  }

  lemma CourierMoves(db: Db, dir: Directory, user: Id, rq: Request, now: Instant, mid: Db, o: Id)
    requires DuringCourier(db, dir, user, rq, now, mid) && o in db.orders && o in mid.orders
    ensures mid.orders[o].status != db.orders[o].status ==>
              && rq.order == Some(o)
              && ((rq.step.Delivered? && mid.orders[o].status.Delivered?)
                  || (rq.step.Undelivered? && mid.orders[o].status.Postponed?))
  {
    hide DuringCourier, SetState, Passes, MayDrive, WorksOn, CountsDelivery, FinishedAt, OnlyMission, OnlyRoute,
      CourierIs;
    CommitsMix(db, dir, user, rq, now, mid);
    RequestOrders(db, dir, user, rq, now);
  }

  /** Only a delivery and a failed delivery write an order, and only the one they name. */
  lemma RequestOrders(db: Db, dir: Directory, user: Id, rq: Request, now: Instant)
    ensures var orders := SetState(db, dir, user, rq, now).db.orders;
      || orders == db.orders
      || (rq.order.Some? && rq.order.value in db.orders && orders.Keys == db.orders.Keys
          && (forall x <- db.orders :: x != rq.order.value ==> orders[x] == db.orders[x])
          && if rq.step.Delivered? then orders[rq.order.value].status.Delivered?
             else rq.step.Undelivered? && orders[rq.order.value].status.Postponed?)
  {
    hide SetState, MayDrive, CountsDelivery, FinishedAt, OnlyMission, OnlyRoute, CourierIs, WaitFor, Open, OnlyAt;
    if !Passes(db, dir, user, rq) {
      RefusalWritesNothing(db, dir, user, rq, now);
    } else if AtAMission(rq.step) {
      var m :| WorksOn(db, rq, m);
      match rq.step {
        case StartRoute => StartColumns(db, dir, user, rq, now, m);
        case ArrivedAtDelivery => ArrivalColumns(db, dir, user, rq, now, m);
        case Delivered => DeliveryColumns(db, dir, user, rq, now, m);
        case Undelivered => FailureColumns(db, dir, user, rq, now, m);
        case StartNextDelivery => NextColumns(db, dir, user, rq, now, m);
        case ReturnToHub => ReturnColumns(db, dir, user, rq, now, m);
      }
    } else if rq.step.FinishRoute? {
      FinishColumns(db, dir, user, rq, now);
    } else if rq.step.Idle? {
      IdleColumns(db, dir, user, rq, now);
    } else {
      HubColumns(db, dir, user, rq, now);
    }
  }

  lemma OrderCallMoves(db: Db, c: OrderCall, o: Id)
    requires CallFits(c) && NewIds(db.orders, c) && o in db.orders && o in AfterOrderCall(db, c).orders
    ensures var next := AfterOrderCall(db, c);
      next.orders[o].status != db.orders[o].status ==>
        match next.orders[o].status
        case Delivered => c.MarkDelivered? && c.id == o
        case Postponed => c.Postpone? && o in c.batch.ids
        case Cancelled =>
          && (c.MarkCancelled? || c.Remove?) && c.id == o
          && (c.Remove? ==> db.orders[o].status.Postponed? || db.orders[o].status.Unassigned?)
        case _ => false
  {
    hide FitsColumns, Postponing;
    if c.Postpone? && Postponing(db.orders, c.batch, |c.batch.ids|).Some? {
      PostponingWrites(db.orders, c.batch, |c.batch.ids|);
      assert c.batch.ids[..|c.batch.ids|] == c.batch.ids;
    }
  }

  lemma StepMoves(db: Db, dir: Directory, e: Event, next: Db)
    requires Supplied(db, e) && Leads(db, dir, e, next)
    ensures OnlyMoves(db, e, next)
  {
    hide DuringGenerate, AfterGenerate, DuringCancel, AfterCancel, SetState, DuringCourier, Scan, AfterOrderCall,
      SweptAway, CancelledAlong, FetchedRows, VisitsRequested, NewIds;
    forall o | o in db.orders && o in next.orders && next.orders[o].status != db.orders[o].status
      ensures CanMove(db, e, o, next.orders[o].status)
    {
      match e.op {
        case Generate(g) =>
          WholeGenerationIsAStage(db, dir, g, e.at);
          GenerationMoves(db, dir, g, e.at, next, o);
        case GenerateInterrupted(g) => GenerationMoves(db, dir, g, e.at, next, o);
        case Cancel(rid) =>
          WholeCancellationIsAStage(db, rid);
          CancelMoves(db, rid, next, o);
        case CancelInterrupted(rid) => CancelMoves(db, rid, next, o);
        case Courier(user, rq) =>
          WholeRequestIsAStage(db, dir, user, rq, e.at);
          CourierMoves(db, dir, user, rq, e.at, next, o);
        case CourierInterrupted(user, rq) => CourierMoves(db, dir, user, rq, e.at, next, o);
        case ScanParcel(rid, barcode) => ScanMovesNothing(db, rid, barcode, e.at);
        case OrderChange(c) => OrderCallMoves(db, c, o);
      }
    }
  }

  lemma ScanMovesNothing(db: Db, rid: Id, barcode: string, now: Instant)
    ensures Scan(db, rid, barcode, now).db.orders == db.orders
  {
  }

  /**
   The life of an order. In every run, interrupted anywhere, an order becomes SCHEDULED only in a generation it
   was fetched for, from REGISTERED or UNASSIGNED, or because that generation's own sweep released it first; it
   becomes UNASSIGNED only in a generation or by the cancellation of its route; DELIVERED and POSTPONED only
   by a report or a call that names it; CANCELLED only by a call that names it; and REGISTERED never again.
   */
  lemma OrdersMoveAsCalled(dir: Directory, states: seq<Db>, events: seq<Event>, k: nat)
    requires Run(dir, states, events) && k < |events|
    ensures k + 1 < |states| && OnlyMoves(states[k], events[k], states[k + 1])
  {
    hide Supplied, Leads, OnlyMoves;
    RunStep(dir, states, events, k);
    StepMoves(states[k], dir, events[k], states[k + 1]);
  }
}
