/** No run, however it is interrupted, reaches a mission whose order is REGISTERED. */
module Registered {
  import opened Base
  import opened Domain
  import opened Tables
  import opened Store
  import opened CourierSpec
  import opened CourierFrame
  import opened SolverOutput
  import opened Planning
  import opened PlanPartition
  import opened OrderCalls
  import opened Lifecycle

  /** The order of every mission has left REGISTERED. */
  ghost predicate PlannedOrders(db: Db) {
    forall m <- db.missions :: db.missions[m].orderId in db.orders
                               && db.orders[db.missions[m].orderId].status != OrderStatus.Registered
  }

  // ---------------------------------------------------------------- what a step may do to orders and missions

  /** An order keeps its place in the lineage, and one that has left REGISTERED does not return to it. */
  predicate Onward(o: Order, o': Order) {
    && o'.barcode == o.barcode && o'.movedAs == o.movedAs
    && (o'.status == OrderStatus.Registered ==> o.status == OrderStatus.Registered)
  }

  predicate OrdersOnward(orders: map<Id, Order>, orders': map<Id, Order>) {
    && orders'.Keys == orders.Keys
    && forall o <- orders :: Onward(orders[o], orders'[o])
  }

  /** The missions and their orders are the same. */
  predicate SameOrders(missions: map<Id, Mission>, missions': map<Id, Mission>) {
    && missions'.Keys == missions.Keys
    && forall m <- missions :: missions'[m].orderId == missions[m].orderId
  }

  lemma StaysPlanned(db: Db, db': Db)
    requires PlannedOrders(db) && OrdersOnward(db.orders, db'.orders) && SameOrders(db.missions, db'.missions)
    ensures PlannedOrders(db')
  {
  }

  lemma ReleasedOnward(orders: map<Id, Order>, rows: set<Id>)
    ensures OrdersOnward(orders, WithUnassigned(orders, rows))
  {
  }

  lemma StatusesOnward(orders: map<Id, Order>, plan: Plan, k: nat)
    requires k <= |plan.orders|
    ensures OrdersOnward(orders, WithStatuses(orders, plan, k))
  {
  }

  // ---------------------------------------------------------------- persisting

  /** Missions are stored only once the statuses of all orders are written. */
  lemma {:induction false} MissionsStayPlanned(db: Db, ps: seq<Planned>, k: nat)
    requires k <= |ps| && PlannedOrders(db)
    requires forall p <- ps :: p.row.orderId in db.orders ==> db.orders[p.row.orderId].status != OrderStatus.Registered
    ensures PlannedOrders(WithMissions(db, ps, k)) && WithMissions(db, ps, k).orders == db.orders
  {
    hide MissionsStorable, WithMission;
    if k == 0 {
    } else {
      MissionsStayPlanned(db, ps, k - 1);
      assert ps[k - 1] in ps;
      MissionStaysPlanned(WithMissions(db, ps, k - 1), ps[k - 1]);
    }
  }

  lemma MissionStaysPlanned(db: Db, p: Planned)
    requires PlannedOrders(db)
    requires p.row.orderId in db.orders ==> db.orders[p.row.orderId].status != OrderStatus.Registered
    ensures PlannedOrders(WithMission(db, p)) && WithMission(db, p).orders == db.orders
  {
    hide MissionReadable;
  }

  /** Every planned mission is for one of the plan's orders. */
  ghost predicate ForItsOrders(plan: Plan) {
    forall p <- plan.missions :: p.row.orderId in plan.orders
  }

  /** A stage of a plan has written a prefix of the statuses and no mission, or all statuses and some missions. */
  lemma StageForm(db: Db, plan: Plan, now: Instant, k: nat) returns (i: nat, j: nat)
    requires k <= 1 + |plan.orders| + |plan.missions|
    ensures i <= |plan.orders| && j <= |plan.missions| && (j > 0 ==> i == |plan.orders|)
    ensures var mid := PersistState(db, plan, now, k);
            var base := WithRoute(db, plan, now).(orders := WithStatuses(db.orders, plan, i));
      mid == if j > 0 then WithMissions(base, plan.missions, j) else base.(routes := mid.routes)
  {
    hide JoinedRoute, RouteStorable;
    assert WithStatuses(db.orders, plan, 0) == db.orders;
    i, j := 0, 0;
    if k > 1 + |plan.orders| && RouteStorable(db, plan) {
      i, j := |plan.orders|, k - 1 - |plan.orders|;
    } else if k > 1 && RouteStorable(db, plan) {
      i := k - 1;
    }
  }

  lemma {:induction false} MissionsLeaveOrders(db: Db, ps: seq<Planned>, k: nat)
    requires k <= |ps|
    ensures WithMissions(db, ps, k).orders == db.orders
  {
    hide MissionReadable, MissionsStorable, ExistingMission, CanInsert;
    if k == 0 {
    } else {
      MissionsLeaveOrders(db, ps, k - 1);
    }
  }

  lemma PersistOnward(db: Db, plan: Plan, now: Instant, k: nat)
    requires k <= 1 + |plan.orders| + |plan.missions|
    ensures OrdersOnward(db.orders, PersistState(db, plan, now, k).orders)
  {
    hide PersistState, WithMissions, WithStatuses, OrdersOnward;
    var i, j := StageForm(db, plan, now, k);
    var base := WithRoute(db, plan, now).(orders := WithStatuses(db.orders, plan, i));
    StatusesOnward(db.orders, plan, i);
    MissionsLeaveOrders(base, plan.missions, j);
  }

  lemma PersistStaysPlanned(db: Db, plan: Plan, now: Instant, k: nat)
    requires PlannedOrders(db) && ForItsOrders(plan) && k <= 1 + |plan.orders| + |plan.missions|
    ensures PlannedOrders(PersistState(db, plan, now, k))
  {
    hide PersistState, WithMissions, WithStatuses, OrdersOnward;
    var i, j := StageForm(db, plan, now, k);
    var base := WithRoute(db, plan, now).(orders := WithStatuses(db.orders, plan, i));
    StatusesOnward(db.orders, plan, i);
    assert base.missions == db.missions;
    StaysPlanned(db, base);
    if j > 0 {
      WrittenStatuses(db, plan);
      MissionsStayPlanned(base, plan.missions, j);
    }
  }

  lemma WrittenStatuses(db: Db, plan: Plan)
    ensures var orders := WithStatuses(db.orders, plan, |plan.orders|);
      forall o <- plan.orders :: o in orders ==> orders[o].status != OrderStatus.Registered
  {
    assert plan.orders[..|plan.orders|] == plan.orders;
  }

  lemma DecidedForItsOrders(db: Db, dir: Directory, g: Generation)
    requires VisitsRequested(g) && Decide(db, dir, g).Persist?
    ensures ForItsOrders(Decide(db, dir, g).plan)
  {
    hide CheckLive;
    var plan := Decide(db, dir, g).plan;
    var steps := g.response.value.routes[0].steps;
    forall p | p in plan.missions ensures p.row.orderId in plan.orders {
      var i := MissionsComeFromVisits(steps, plan.routeId, p);
    }
  }

  // ---------------------------------------------------------------- every step

  /** A step that keeps the missions' orders and moves orders onward. */
  ghost predicate MovesOnward(db: Db, next: Db) {
    OrdersOnward(db.orders, next.orders) && SameOrders(db.missions, next.missions)
  }

  lemma SweepMovesOnward(db: Db, t: Time, mid: Db)
    requires DuringSweep(db, t, mid)
    ensures MovesOnward(db, mid)
  {
    var rs, ms, os :| SweepProgress(db, t, rs, ms, os) && mid == SweepState(db, rs, ms, os);
    ReleasedOnward(db.orders, OrdersOf(db.missions, os));
  }

  lemma CancelMovesOnward(db: Db, rid: Id, mid: Db)
    requires DuringCancel(db, rid, mid)
    ensures MovesOnward(db, mid)
  {
    hide WithUnassigned, RouteReadable, OrdersOnward;
    if mid == db {
      ReleasedOnward(db.orders, {});
      NothingReleased(db.orders);
    } else {
      var ms, os :| CancelProgress(db, rid, ms, os) && mid == CancelState(db, rid, ms, os);
      ReleasedOnward(db.orders, OrdersOf(db.missions, os));
    }
  }

  lemma NothingReleased(orders: map<Id, Order>)
    ensures WithUnassigned(orders, {}) == orders
  {
  }

  lemma ReleaseMovesOnward(db: Db, fetched: seq<Id>, mid: Db)
    requires DuringRelease(db, fetched, mid)
    ensures MovesOnward(db, mid)
  {
    var k: nat :| k <= |fetched| && mid == AllUnassigned(db, fetched[..k]);
    ReleasedOnward(db.orders, set o | o in fetched[..k]);
  }

  lemma CourierMovesOnward(db: Db, dir: Directory, user: Id, rq: Request, now: Instant, mid: Db)
    requires DuringCourier(db, dir, user, rq, now, mid)
    ensures MovesOnward(db, mid)
  {
    hide DuringCourier;
    DuringCourierFrame(db, dir, user, rq, now, mid);
  }

  lemma ScanMovesOnward(db: Db, rid: Id, barcode: string, now: Instant)
    ensures MovesOnward(db, Scan(db, rid, barcode, now).db)
  {
    hide MissionReadable, RouteReadable;
  }

  lemma SweepIsStage(db: Db, t: Time)
    ensures DuringSweep(db, t, AfterSweep(db, t))
  {
    var all := Reached(db, t);
    assert SweepProgress(db, t, Swept(db.routes, t), all, all);
  }

  lemma OnwardTwice(a: map<Id, Order>, b: map<Id, Order>, c: map<Id, Order>)
    requires OrdersOnward(a, b) && OrdersOnward(b, c)
    ensures OrdersOnward(a, c)
  {
  }

  lemma GenerateMovesOnward(db: Db, dir: Directory, g: Generation, now: Instant, mid: Db)
    requires DuringGenerate(db, dir, g, now, mid)
    ensures OrdersOnward(db.orders, mid.orders)
    ensures PlannedOrders(db) && VisitsRequested(g) ==> PlannedOrders(mid)
  {
    hide AfterSweep, Decide, DuringSweep, PersistState, PlannedOrders, OrdersOnward, SameOrders, DuringRelease;
    var t := TimeOf(now);
    var db1 := AfterSweep(db, t);
    SweepIsStage(db, t);
    SweepMovesOnward(db, t, db1);
    if PlannedOrders(db) {
      StaysPlanned(db, db1);
    }
    if DuringSweep(db, t, mid) {
      SweepMovesOnward(db, t, mid);
      if PlannedOrders(db) {
        StaysPlanned(db, mid);
      }
    } else if Decide(db1, dir, g).NothingRouted? {
      ReleaseMovesOnward(db1, g.fetched, mid);
      OnwardTwice(db.orders, db1.orders, mid.orders);
      if PlannedOrders(db) {
        StaysPlanned(db1, mid);
      }
    } else {
      var plan := Decide(db1, dir, g).plan;
      var k: nat :| k <= 1 + |plan.orders| + |plan.missions| && mid == PersistState(db1, plan, now, k);
      PersistOnward(db1, plan, now, k);
      OnwardTwice(db.orders, db1.orders, mid.orders);
      if PlannedOrders(db) && VisitsRequested(g) {
        DecidedForItsOrders(db1, dir, g);
        PersistStaysPlanned(db1, plan, now, k);
      }
    }
  }

  /** Whatever the call, unless it changes orders itself, every order keeps its barcode and its link. */
  lemma StepMovesOnward(db: Db, dir: Directory, e: Event, next: Db)
    requires Leads(db, dir, e, next) && !e.op.OrderChange?
    ensures OrdersOnward(db.orders, next.orders)
    ensures !e.op.Generate? && !e.op.GenerateInterrupted? ==> MovesOnward(db, next)
  {
    hide OrdersOnward, SameOrders, DuringGenerate, AfterGenerate, DuringCancel, AfterCancel, SetState, DuringCourier,
      Scan;
    match e.op {
      case Generate(g) =>
        WholeGenerationIsAStage(db, dir, g, e.at);
        GenerateMovesOnward(db, dir, g, e.at, next);
      case GenerateInterrupted(g) => GenerateMovesOnward(db, dir, g, e.at, next);
      case Cancel(rid) =>
        WholeCancellationIsAStage(db, rid);
        CancelMovesOnward(db, rid, next);
      case CancelInterrupted(rid) => CancelMovesOnward(db, rid, next);
      case Courier(user, rq) =>
        WholeRequestIsAStage(db, dir, user, rq, e.at);
        CourierMovesOnward(db, dir, user, rq, e.at, next);
      case CourierInterrupted(user, rq) => CourierMovesOnward(db, dir, user, rq, e.at, next);
      case ScanParcel(rid, barcode) => ScanMovesOnward(db, rid, barcode, e.at);
    }
  }

  lemma OrderCallStaysPlanned(db: Db, c: OrderCall)
    requires PlannedOrders(db) && CallFits(c) && NewIds(db.orders, c)
    ensures PlannedOrders(AfterOrderCall(db, c))
  {
    hide Postponing, FitsColumns;
    if c.Postpone? && Postponing(db.orders, c.batch, |c.batch.ids|).Some? {
      PostponingStaysPlanned(db, c.batch, |c.batch.ids|);
    }
  }

  lemma {:induction false} PostponingStaysPlanned(db: Db, b: Batch, k: nat)
    requires PlannedOrders(db) && k <= |b.ids| == |b.newIds|
    requires forall i :: 0 <= i < |b.newIds| ==> b.newIds[i] !in db.orders
    requires Postponing(db.orders, b, k).Some?
    ensures PlannedOrders(db.(orders := Postponing(db.orders, b, k).value))
  {
    hide FitsColumns;
    if k == 0 {
    } else {
      PostponingStaysPlanned(db, b, k - 1);
    }
  }

  lemma StepStaysPlanned(db: Db, dir: Directory, e: Event, next: Db)
    requires PlannedOrders(db) && Supplied(db, e) && Leads(db, dir, e, next)
    ensures PlannedOrders(next)
  {
    hide PlannedOrders, OrdersOnward, SameOrders, DuringGenerate, AfterGenerate, DuringCancel, AfterCancel, SetState,
      DuringCourier, Scan, AfterOrderCall;
    if e.op.Generate? {
      WholeGenerationIsAStage(db, dir, e.op.g, e.at);
      GenerateMovesOnward(db, dir, e.op.g, e.at, next);
    } else if e.op.GenerateInterrupted? {
      GenerateMovesOnward(db, dir, e.op.g, e.at, next);
    } else if e.op.OrderChange? {
      OrderCallStaysPlanned(db, e.op.call);
    } else {
      StepMovesOnward(db, dir, e, next);
      StaysPlanned(db, next);
    }
  }

  /** In every run, interrupted anywhere, the order of every mission has left REGISTERED. */
  lemma {:induction false} NoMissionForARegisteredOrder(dir: Directory, states: seq<Db>, events: seq<Event>, k: nat)
    requires Run(dir, states, events) && PlannedOrders(states[0]) && k <= |events|
    ensures PlannedOrders(states[k])
  {
    hide PlannedOrders, Supplied, Leads;
    if k == 0 {
    } else {
      NoMissionForARegisteredOrder(dir, states, events, k - 1);
      StepStaysPlanned(states[k - 1], dir, events[k - 1], states[k]);
    }
  }

  /** So the deletion of an order that removes its row never takes a mission with it. */
  lemma HardDeleteLeavesMissions(dir: Directory, states: seq<Db>, events: seq<Event>, k: nat, id: Id)
    requires Run(dir, states, events) && PlannedOrders(states[0]) && k < |events|
    requires events[k].op == OrderChange(Remove(id)) && id in states[k].orders && id !in states[k + 1].orders
    ensures MissionsFor(states[k].missions, id) == {} && states[k + 1].missions == states[k].missions
  {
    hide Supplied;
    NoMissionForARegisteredOrder(dir, states, events, k);
    assert states[k + 1] == AfterOrderCall(states[k], Remove(id));
    assert MissionsFor(states[k].missions, id) == {} by {
      assert PlannedOrders(states[k]);
    }
  }
}
