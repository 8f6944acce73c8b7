/** Accounting of waiting times over the runs of the whole system. */
module Waiting {
  import opened Base
  import opened Domain
  import opened Tables
  import opened Store
  import opened CourierSpec
  import opened CourierFrame
  import opened SolverOutput
  import opened Planning
  import opened OrderCalls
  import opened Lifecycle
  import opened Registered
  import opened Readable
  import opened Links

  /** The request reports the arrival at this mission. */
  predicate Reports(rq: Request, m: Mission) {
    rq.step.ArrivedAtDelivery? && rq.route == m.routeId && rq.order == Some(m.orderId)
  }

  /** A recorded wait is the earliness in whole minutes, so it lies between 0 and 1439. */
  lemma EarlinessInMinutes(t: Time, earliest: Time)
    ensures var w := Earliness(t, earliest);
      && 0 <= w <= 1439
      && (t < earliest ==> w * MINUTE <= earliest - t < (w + 1) * MINUTE)
      && (t >= earliest ==> w == 0)
  {
  }

  /** How one call changes the recorded waits. */
  ghost predicate RecordsOnly(db: Db, r: Result, rq: Request, now: Instant) {
    && r.db.missions.Keys == db.missions.Keys
    && forall m <- db.missions ::
         if Reports(rq, db.missions[m]) && r.Done? then
           && db.missions[m].orderId in db.orders && HasWindow(db.orders[db.missions[m].orderId])
           && r.db.missions[m].actualWaiting
              == Some(Earliness(TimeOf(now), db.orders[db.missions[m].orderId].earliest.value))
         else r.db.missions[m].actualWaiting == db.missions[m].actualWaiting
  }

  /** The rows of a table other than one mission keep their waits. */
  predicate SameWaits(db: Db, db': Db) {
    db'.missions.Keys == db.missions.Keys
    && forall m <- db.missions :: db'.missions[m].actualWaiting == db.missions[m].actualWaiting
  }

  lemma DeliveryKeepsWaits(db: Db, dir: Directory, user: Id, courier: Id, route: Route, m: Id, o: Id, rq: Request,
                           now: Instant)
    requires m in db.missions && o in db.orders
    ensures SameWaits(db, OnDelivered(db, dir, user, courier, route, m, o, rq.comment, now).db)
  {
    hide MissionReadable, HasWindow;
  }

  lemma FailureKeepsWaits(db: Db, route: Route, m: Id, o: Id, rq: Request, now: Instant)
    requires m in db.missions && o in db.orders
    ensures SameWaits(db, OnUndelivered(db, route, m, o, rq, now).db)
  {
    hide MissionReadable, Restatus;
  }

  lemma LeavingKeepsWaits(db: Db, rid: Id, route: Route, m: Id, now: Instant)
    requires m in db.missions && rid in db.routes
    ensures SameWaits(db, OnStartRoute(db, rid, route, m, now).db)
    ensures SameWaits(db, OnStartNext(db, rid, route, m, now).db)
    ensures SameWaits(db, OnReturn(db, route, m, now).db)
  {
    hide MissionReadable, RouteReadable, NextByPosition;
  }

  lemma FinishKeepsWaits(db: Db, rid: Id, route: Route, courier: Id, now: Instant)
    ensures SameWaits(db, OnFinish(db, rid, route, courier, now).db)
  {
    hide MissionReadable, TotalWaiting;
  }

  lemma OtherStepsKeepWaits(db: Db, dir: Directory, user: Id, courier: Id, rq: Request, now: Instant)
    requires RouteAssigned(db, rq.route, courier) && (NeedsOrder(rq.step) ==> MissionGiven(db, rq))
    requires !rq.step.ArrivedAtDelivery?
    ensures SameWaits(db, Process(db, dir, user, courier, rq, now).db)
  {
    hide RouteReadable, OnDelivered, OnUndelivered, OnStartRoute, OnStartNext, OnReturn, OnFinish;
    var route := db.routes[rq.route];
    if NeedsOrder(rq.step) {
      var m := MissionOn(db.missions, rq.order.value, rq.route).id;
      DeliveryKeepsWaits(db, dir, user, courier, route, m, rq.order.value, rq, now);
      FailureKeepsWaits(db, route, m, rq.order.value, rq, now);
      LeavingKeepsWaits(db, rq.route, route, m, now);
    } else {
      FinishKeepsWaits(db, rq.route, route, courier, now);
    }
  }

  lemma ArrivalRecords(db: Db, dir: Directory, user: Id, courier: Id, rq: Request, now: Instant)
    requires Linked(db) && RouteAssigned(db, rq.route, courier) && MissionGiven(db, rq)
    requires rq.step.ArrivedAtDelivery?
    ensures RecordsOnly(db, Conclude(Process(db, dir, user, courier, rq, now), rq.route, courier, rq.step), rq, now)
  {
    var m := MissionOn(db.missions, rq.order.value, rq.route).id;
    SoleIs(RowsOn(db.missions, rq.order.value, rq.route), m);
    assert m in RowsOn(db.missions, rq.order.value, rq.route);
    assert forall m' <- db.missions ::
        Reports(rq, db.missions[m']) <==> m' in RowsOn(db.missions, rq.order.value, rq.route);
    if HasWindow(db.orders[rq.order.value]) {
      EarlinessInMinutes(TimeOf(now), db.orders[rq.order.value].earliest.value);
    }
  }

  lemma CallRecords(db: Db, dir: Directory, user: Id, rq: Request, now: Instant)
    requires Linked(db)
    ensures RecordsOnly(db, SetState(db, dir, user, rq, now), rq, now)
  {
    hide Process, MissionGiven, HasWindow;
    if user in dir.courierOf {
      var courier := dir.courierOf[user];
      var db1 := WithCourier(db, courier, rq);
      if RouteAssigned(db1, rq.route, courier) && (NeedsOrder(rq.step) ==> MissionGiven(db1, rq)) {
        if rq.step.ArrivedAtDelivery? {
          ArrivalRecords(db1, dir, user, courier, rq, now);
        } else {
          OtherStepsKeepWaits(db1, dir, user, courier, rq, now);
        }
      }
    }
  }

  // ---------------------------------------------------------------- the other calls

  /** Old rows keep their waits; new rows have none. */
  predicate KeepsWaits(missions: map<Id, Mission>, missions': map<Id, Mission>) {
    forall m <- missions' ::
      if m in missions then missions'[m].actualWaiting == missions[m].actualWaiting
      else missions'[m].actualWaiting.None?
  }

  lemma KeepsWaitsTwice(a: map<Id, Mission>, b: map<Id, Mission>, c: map<Id, Mission>)
    requires KeepsWaits(a, b) && KeepsWaits(b, c) && a.Keys <= b.Keys
    ensures KeepsWaits(a, c)
  {
  }

  lemma StatusesKeepWaits(db: Db, db': Db)
    requires OnlyStatuses(db, db')
    ensures KeepsWaits(db.missions, db'.missions) && db'.missions.Keys == db.missions.Keys
  {
  }

  lemma MissionKeepsWaits(db: Db, p: Planned)
    requires p.row.actualWaiting.None?
    ensures KeepsWaits(db.missions, WithMission(db, p).missions)
    ensures db.missions.Keys <= WithMission(db, p).missions.Keys
  {
    hide MissionReadable, MissionsFor, Sole;
  }

  lemma {:induction false} MissionsKeepWaits(db: Db, ps: seq<Planned>, k: nat)
    requires k <= |ps| && forall p <- ps :: p.row.actualWaiting.None?
    ensures KeepsWaits(db.missions, WithMissions(db, ps, k).missions)
    ensures db.missions.Keys <= WithMissions(db, ps, k).missions.Keys
  {
    hide MissionsStorable, WithMission;
    if k == 0 {
    } else {
      var before := WithMissions(db, ps, k - 1);
      MissionsKeepWaits(db, ps, k - 1);
      assert ps[k - 1] in ps;
      MissionKeepsWaits(before, ps[k - 1]);
      KeepsWaitsTwice(db.missions, before.missions, WithMission(before, ps[k - 1]).missions);
    }
  }

  lemma PersistKeepsWaits(db: Db, plan: Plan, now: Instant, mid: Db)
    requires NewPlan(plan) && DuringPersist(db, plan, now, mid)
    ensures KeepsWaits(db.missions, mid.missions)
  {
    hide PersistState, WithMissions, WithStatuses, RouteReadable, MissionReadable;
    var k: nat :| k <= 1 + |plan.orders| + |plan.missions| && mid == PersistState(db, plan, now, k);
    var i, j := StageForm(db, plan, now, k);
    var base := WithRoute(db, plan, now).(orders := WithStatuses(db.orders, plan, i));
    assert base.missions == db.missions;
    MissionsKeepWaits(base, plan.missions, j);
  }

  lemma GenerateKeepsWaits(db: Db, dir: Directory, g: Generation, now: Instant, mid: Db)
    requires DuringGenerate(db, dir, g, now, mid)
    ensures KeepsWaits(db.missions, mid.missions)
  {
    hide AfterSweep, Decide, DuringSweep, DuringPersist, NewPlan, OnlyStatuses, KeepsWaits;
    var t := TimeOf(now);
    var db1 := AfterSweep(db, t);
    SweepIsStage(db, t);
    SweepWritesStatuses(db, t, db1);
    StatusesKeepWaits(db, db1);
    if DuringSweep(db, t, mid) {
      SweepWritesStatuses(db, t, mid);
      StatusesKeepWaits(db, mid);
    } else if Decide(db1, dir, g).Persist? {
      DecidedPlanIsNew(db1, dir, g);
      PersistKeepsWaits(db1, Decide(db1, dir, g).plan, now, mid);
      KeepsWaitsTwice(db.missions, db1.missions, mid.missions);
    }
  }

  lemma OrderCallKeepsWaits(db: Db, c: OrderCall)
    requires CallFits(c)
    ensures KeepsWaits(db.missions, AfterOrderCall(db, c).missions)
  {
    hide FitsColumns, AfterPostpone;
  }

  lemma ScanKeepsWaits(db: Db, rid: Id, barcode: string, now: Instant)
    ensures KeepsWaits(db.missions, Scan(db, rid, barcode, now).db.missions)
  {
    hide MissionReadable, RouteReadable;
  }

  // ---------------------------------------------------------------- one event

  /** The arrival at this mission is reported, accepted and stored: the missions are those the whole request leaves. */
  ghost predicate Records(db: Db, dir: Directory, e: Event, next: Db, m: Id)
    requires m in db.missions
  {
    && ByCourier(e) && Reports(e.op.request, db.missions[m])
    && var r := SetState(db, dir, e.op.user, e.op.request, e.at);
    r.Done? && next.missions == r.db.missions
  }

  /** A stored arrival records its earliness; no other event changes a wait, and a new mission has none. */
  ghost predicate WaitsFollow(db: Db, dir: Directory, e: Event, next: Db) {
    forall m <- next.missions ::
      if m !in db.missions then next.missions[m].actualWaiting.None?
      else if Records(db, dir, e, next, m) then
        && db.missions[m].orderId in db.orders && HasWindow(db.orders[db.missions[m].orderId])
        && next.missions[m].actualWaiting
           == Some(Earliness(TimeOf(e.at), db.orders[db.missions[m].orderId].earliest.value))
      else next.missions[m].actualWaiting == db.missions[m].actualWaiting
  }

  lemma CourierWaitsFollow(db: Db, dir: Directory, e: Event, next: Db)
    requires Linked(db) && ByCourier(e) && DuringCourier(db, dir, e.op.user, e.op.request, e.at, next)
    ensures WaitsFollow(db, dir, e, next)
  {
    hide SetState, DuringCourier, Linked, HasWindow, Earliness;
    CallRecords(db, dir, e.op.user, e.op.request, e.at);
    CommitsMix(db, dir, e.op.user, e.op.request, e.at, next);
  }

  lemma StepWaitsFollow(db: Db, dir: Directory, e: Event, next: Db)
    requires Linked(db) && Leads(db, dir, e, next)
    ensures WaitsFollow(db, dir, e, next)
  {
    hide Linked, DuringGenerate, AfterGenerate, DuringCancel, AfterCancel, SetState, DuringCourier, Scan,
      AfterOrderCall, OnlyStatuses, HasWindow, Earliness, Reports;
    match e.op {
      case Generate(g) =>
        WholeGenerationIsAStage(db, dir, g, e.at);
        GenerateKeepsWaits(db, dir, g, e.at, next);
      case GenerateInterrupted(g) => GenerateKeepsWaits(db, dir, g, e.at, next);
      case Cancel(rid) =>
        WholeCancellationIsAStage(db, rid);
        CancelWritesStatuses(db, rid, next);
        StatusesKeepWaits(db, next);
      case CancelInterrupted(rid) =>
        CancelWritesStatuses(db, rid, next);
        StatusesKeepWaits(db, next);
      case Courier(user, rq) =>
        WholeRequestIsAStage(db, dir, user, rq, e.at);
        CourierWaitsFollow(db, dir, e, next);
      case CourierInterrupted(user, rq) => CourierWaitsFollow(db, dir, e, next);
      case ScanParcel(rid, barcode) => ScanKeepsWaits(db, rid, barcode, e.at);
      case OrderChange(c) => OrderCallKeepsWaits(db, c);
    }
  }

  // ---------------------------------------------------------------- runs

  /** The wait of the last arrival stored for a mission since its row is there, or as at the start of the run. */
  ghost function LatestWait(dir: Directory, states: seq<Db>, events: seq<Event>, k: nat, m: Id): Option<int>
    requires k <= |events| && |states| == |events| + 1 && m in states[k].missions
  {
    if k == 0 then states[0].missions[m].actualWaiting
    else if m !in states[k - 1].missions then None
    else
      var db, e := states[k - 1], events[k - 1];
      var o := db.missions[m].orderId;
      if Records(db, dir, e, states[k], m) && o in db.orders && db.orders[o].earliest.Some? then
        Some(Earliness(TimeOf(e.at), db.orders[o].earliest.value))
      else LatestWait(dir, states, events, k - 1, m)
  }

  /**
   However often arrivals are reported, and whatever is planned, swept or edited in between, a mission shows the
   wait of the last arrival that was stored.
   */
  lemma {:induction false} WaitsAreLatest(dir: Directory, states: seq<Db>, events: seq<Event>, k: nat)
    requires Run(dir, states, events) && Linked(states[0]) && k <= |events|
    ensures forall m <- states[k].missions ::
              states[k].missions[m].actualWaiting == LatestWait(dir, states, events, k, m)
  {
    hide Linked, Supplied, Leads, Records, Earliness;
    if k == 0 {
    } else {
      WaitsAreLatest(dir, states, events, k - 1);
      LinksHold(dir, states, events, k - 1);
      RunStep(dir, states, events, k - 1);
      StepWaitsFollow(states[k - 1], dir, events[k - 1], states[k]);
    }
  }

  lemma {:induction false} SumIsBounded(missions: map<Id, Mission>, rows: set<Id>)
    requires rows <= missions.Keys
    requires forall m <- rows :: 0 <= WaitOf(missions[m]) <= 1439
    ensures 0 <= SumWaits(missions, rows) <= 1439 * |rows|
    decreases rows
  {
    if rows == {} {
    } else {
      var m :| m in rows;
      SumWaitsTake(missions, rows, m);
      SumIsBounded(missions, rows - {m});
    }
  }

  lemma {:induction false} WaitsStayBounded(dir: Directory, states: seq<Db>, events: seq<Event>, k: nat)
    requires Run(dir, states, events) && Linked(states[0]) && k <= |events|
    requires forall m <- states[0].missions :: 0 <= WaitOf(states[0].missions[m]) <= 1439
    ensures forall m <- states[k].missions :: 0 <= WaitOf(states[k].missions[m]) <= 1439
  {
    hide Linked, Supplied, Leads, Records, Earliness;
    if k == 0 {
    } else {
      var db, e := states[k - 1], events[k - 1];
      WaitsStayBounded(dir, states, events, k - 1);
      LinksHold(dir, states, events, k - 1);
      RunStep(dir, states, events, k - 1);
      StepWaitsFollow(db, dir, e, states[k]);
      forall m | m in states[k].missions ensures 0 <= WaitOf(states[k].missions[m]) <= 1439 {
        if m in db.missions && Records(db, dir, e, states[k], m) {
          EarlinessInMinutes(TimeOf(e.at), db.orders[db.missions[m].orderId].earliest.value);
        }
      }
    }
  }

  /** A successful finish stores the total of the waits its route's missions then show. */
  lemma FinishStoresTotal(db: Db, dir: Directory, user: Id, rq: Request, now: Instant)
    requires rq.step.FinishRoute? && SetState(db, dir, user, rq, now).Done?
    ensures var db' := SetState(db, dir, user, rq, now).db;
      rq.route in db'.routes
      && db'.routes[rq.route].totalActualWaiting == Some(TotalWaiting(db'.missions, rq.route))
  {
    hide MissionReadable, RouteReadable, TotalWaiting;
  }

  lemma {:induction false} SameSum(missions: map<Id, Mission>, missions': map<Id, Mission>, rows: set<Id>)
    requires rows <= missions.Keys && rows <= missions'.Keys
    requires forall m <- rows :: missions'[m].actualWaiting == missions[m].actualWaiting
    ensures SumWaits(missions', rows) == SumWaits(missions, rows)
    decreases rows
  {
    if rows == {} {
    } else {
      var m :| m in rows;
      SumWaitsTake(missions, rows, m);
      SumWaitsTake(missions', rows, m);
      SameSum(missions, missions', rows - {m});
    }
  }

  /** A finish is accepted and its route stored: the routes are those the whole request leaves. */
  ghost predicate FinishStored(db: Db, dir: Directory, e: Event, next: Db) {
    && ByCourier(e) && e.op.request.step.FinishRoute?
    && var r := SetState(db, dir, e.op.user, e.op.request, e.at);
    r.Done? && next.routes == r.db.routes
  }

  lemma FinishedTotal(db: Db, dir: Directory, e: Event, next: Db)
    requires Linked(db) && Leads(db, dir, e, next) && FinishStored(db, dir, e, next)
    ensures var rid := e.op.request.route;
      rid in next.routes && next.routes[rid].totalActualWaiting == Some(TotalWaiting(next.missions, rid))
  {
    hide SetState, DuringCourier, Framed, SameRoute, SameOrder, Linked, MissionReadable, RouteReadable;
    var user, rq, r := e.op.user, e.op.request, SetState(db, dir, e.op.user, e.op.request, e.at);
    FinishStoresTotal(db, dir, user, rq, e.at);
    CallRecords(db, dir, user, rq, e.at);
    WholeRequestIsAStage(db, dir, user, rq, e.at);
    CommitsMix(db, dir, user, rq, e.at, next);
    SameRoutesOfMissions(db, dir, user, rq, e.at);
    assert MissionsOf(r.db.missions, rq.route) == MissionsOf(db.missions, rq.route);
    SameSum(db.missions, r.db.missions, MissionsOf(db.missions, rq.route));
  }

  lemma SameRoutesOfMissions(db: Db, dir: Directory, user: Id, rq: Request, now: Instant)
    ensures var missions := SetState(db, dir, user, rq, now).db.missions;
      missions.Keys == db.missions.Keys && forall m <- db.missions :: missions[m].routeId == db.missions[m].routeId
  {
    hide SetState;
    SetStateFrame(db, dir, user, rq, now);
  }

  /**
   Waiting-time accounting: whenever an event of a run finishes a route, the stored total is the sum over the
   missions the route then has of the wait of each one's last stored arrival, and at most 1439 minutes for each.
   */
  lemma WaitingTimeAccounting(dir: Directory, states: seq<Db>, events: seq<Event>, k: nat)
    requires Run(dir, states, events) && Linked(states[0]) && 0 < k <= |events|
    requires forall m <- states[0].missions :: 0 <= WaitOf(states[0].missions[m]) <= 1439
    requires FinishStored(states[k - 1], dir, events[k - 1], states[k])
    ensures var at, rid := states[k], events[k - 1].op.request.route;
            var rows := MissionsOf(at.missions, rid);
      && (forall m <- rows :: at.missions[m].actualWaiting == LatestWait(dir, states, events, k, m))
      && rid in at.routes && at.routes[rid].totalActualWaiting == Some(SumWaits(at.missions, rows))
      && 0 <= SumWaits(at.missions, rows) <= 1439 * |rows|
  {
    hide Linked, Supplied, Leads, Records;
    var at, rid := states[k], events[k - 1].op.request.route;
    LinksHold(dir, states, events, k - 1);
    RunStep(dir, states, events, k - 1);
    FinishedTotal(states[k - 1], dir, events[k - 1], at);
    WaitsAreLatest(dir, states, events, k);
    WaitsStayBounded(dir, states, events, k);
    SumIsBounded(at.missions, MissionsOf(at.missions, rid));
  }
}
