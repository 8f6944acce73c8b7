/** At most one live route per terminal, and it is the newest one: which steps keep that, and which runs. */
module LiveRoutes {
  import opened Base
  import opened Domain
  import opened Tables
  import opened Store
  import opened CourierSpec
  import opened CourierFrame
  import opened SolverOutput
  import opened Planning
  import opened OrderCalls
  import opened Lifecycle
  import opened Registered
  import opened Readable
  import opened Daytime

  /** Created strictly after every other route of its terminal. */
  ghost predicate Newest(routes: map<Id, Route>, r: Id)
    requires r in routes
  {
    forall r' <- routes :: r' != r && routes[r'].terminalId == routes[r].terminalId ==>
                             routes[r'].createdAt < routes[r].createdAt
  }

  ghost predicate LiveIsNewest(routes: map<Id, Route>) {
    forall r <- routes :: Live(routes[r]) ==> Newest(routes, r)
  }

  ghost predicate NoLiveRoute(routes: map<Id, Route>, terminal: Id) {
    forall r <- routes :: routes[r].terminalId == terminal ==> !Live(routes[r])
  }

  lemma AtMostOneLive(routes: map<Id, Route>, r: Id, r': Id)
    requires LiveIsNewest(routes) && r in routes && r' in routes
    requires Live(routes[r]) && Live(routes[r']) && routes[r].terminalId == routes[r'].terminalId
    ensures r == r'
  {
    assert Newest(routes, r) && Newest(routes, r');
  }

  // ---------------------------------------------------------------- the lookup

  /** The newest routes of the terminal, whether or not they can all be read. */
  function Recent(routes: map<Id, Route>, terminal: Id): set<Id> {
    set r | r in routes && routes[r].terminalId == terminal && |NewerRoutes(routes, r)| < PAGE
  }

  ghost predicate AllRead(routes: map<Id, Route>, rows: set<Id>) {
    forall r <- rows :: r in routes && RouteReadable(routes[r])
  }

  lemma NoneNewer(routes: map<Id, Route>, r: Id)
    requires LiveIsNewest(routes) && r in routes && Live(routes[r])
    ensures NewerRoutes(routes, r) == {} && r in Recent(routes, routes[r].terminalId)
  {
    assert Newest(routes, r);
  }

  lemma RecentIs(routes: map<Id, Route>, terminal: Id)
    ensures RecentRoutes(routes, terminal)
         == if AllRead(routes, Recent(routes, terminal)) then Recent(routes, terminal) else {}
  {
    hide RouteReadable, NewerRoutes;
  }

  /**
   However many routes a terminal has had, the lookup returns its live route if and only if none of the
   terminal's hundred newest rows is unreadable.
   */
  lemma LookupFindsTheLiveRoute(routes: map<Id, Route>, r: Id)
    requires LiveIsNewest(routes) && r in routes && Live(routes[r])
    ensures r in RecentRoutes(routes, routes[r].terminalId) <==> AllRead(routes, Recent(routes, routes[r].terminalId))
  {
    NoneNewer(routes, r);
    RecentIs(routes, routes[r].terminalId);
  }

  /**
   The live-route check finds no route if and only if the terminal has none that is live, or one of its
   hundred newest rows cannot be read. Otherwise it blocks for a route on the road and joins a scheduled one.
   */
  lemma CheckIsExact(routes: map<Id, Route>, terminal: Id)
    requires LiveIsNewest(routes)
    ensures CheckLive(routes, terminal).NoneLive?
       <==> !AllRead(routes, Recent(routes, terminal)) || NoLiveRoute(routes, terminal)
    ensures CheckLive(routes, terminal).Join? ==>
              var r := CheckLive(routes, terminal).route;
              && AllRead(routes, Recent(routes, terminal))
              && r in routes && routes[r].terminalId == terminal && routes[r].status == RouteStatus.Scheduled
  {
    hide RouteReadable, NewerRoutes, RecentRoutes, LiveIsNewest, AllRead;
    RecentIs(routes, terminal);
    if AllRead(routes, Recent(routes, terminal)) {
      if r :| r in routes && routes[r].terminalId == terminal && Live(routes[r]) {
        NoneNewer(routes, r);
        LiveIsFound(routes, terminal, r);
      }
    }
  }

  lemma LiveIsFound(routes: map<Id, Route>, terminal: Id, r: Id)
    requires LiveIsNewest(routes) && r in routes && Live(routes[r]) && r in RecentRoutes(routes, terminal)
    ensures OnTheRoad(routes[r]) || OldestScheduled(routes, RecentRoutes(routes, terminal), r)
    ensures !CheckLive(routes, terminal).NoneLive?
  {
    hide LiveIsNewest, RouteReadable;
    var rows := RecentRoutes(routes, terminal);
    forall r' | r' in rows && routes[r'].status == RouteStatus.Scheduled && !OnTheRoad(routes[r]) ensures r' == r {
      AtMostOneLive(routes, r, r');
    }
  }

  // ---------------------------------------------------------------- what makes a route live

  /** The steps that set a status of a live route. */
  predicate Revives(step: CourierStep) {
    step.StartLoading? || step.StartRoute? || step.ReturnToHub?
  }

  /** The request reaches the write-back of the route. */
  predicate WritesRoute(db: Db, dir: Directory, user: Id, rq: Request, now: Instant) {
    Granted(db, dir, user, rq) && MissionInTime(db, rq, now)
  }

  /** A request sets the status of its step exactly when it reaches the write-back, whether or not it then succeeds. */
  lemma RequestStatus(db: Db, dir: Directory, user: Id, rq: Request, now: Instant)
    requires rq.route in db.routes
    ensures var end := SetState(db, dir, user, rq, now).db;
      && rq.route in end.routes
      && end.routes[rq.route].status
         == if WritesRoute(db, dir, user, rq, now) then RouteStatusAfter(db.routes[rq.route].status, rq.step, true)
            else db.routes[rq.route].status
  {
    hide Process, MissionGiven, RouteReadable, MissionInTime;
    if Granted(db, dir, user, rq) {
      var courier := dir.courierOf[user];
      var db1 := WithCourier(db, courier, rq);
      SameForNewCourier(db, courier, rq, now);
      HandlerTimes(db1, dir, user, courier, rq, now);
      HandlerRoute(db1, dir, user, courier, rq, now);
      RouteEntityFrame(db1, dir, user, courier, rq, now);
      if Revives(rq.step) {
        HandlerGetsThrough(db1, dir, user, courier, rq, now);
      }
    } else {
      RefusedLosesNothing(db, dir, user, rq, now);
    }
  }

  lemma HandlerGetsThrough(db: Db, dir: Directory, user: Id, courier: Id, rq: Request, now: Instant)
    requires RouteAssigned(db, rq.route, courier) && (NeedsOrder(rq.step) ==> MissionGiven(db, rq))
    requires Revives(rq.step)
    ensures Process(db, dir, user, courier, rq, now).ok <==> MissionInTime(db, rq, now)
  {
    hide RouteReadable;
    if rq.step.ReturnToHub? {
      ReturnInTime(db, dir, user, courier, rq, now);
    }
  }

  /** A route that is over becomes live if and only if a loading, a start or a return reaches its write-back. */
  lemma RevivalIsExact(db: Db, dir: Directory, user: Id, rq: Request, now: Instant)
    requires rq.route in db.routes && !Live(db.routes[rq.route])
    ensures var r := SetState(db, dir, user, rq, now);
      && rq.route in r.db.routes
      && (Live(r.db.routes[rq.route]) <==> Revives(rq.step) && WritesRoute(db, dir, user, rq, now))
      && (r.Done? ==> (Live(r.db.routes[rq.route]) <==> Revives(rq.step)))
  {
    hide SetState, WritesRoute;
    RequestStatus(db, dir, user, rq, now);
    if SetState(db, dir, user, rq, now).Done? && Revives(rq.step) {
      DoneWrites(db, dir, user, rq, now);
    }
  }

  lemma DoneWrites(db: Db, dir: Directory, user: Id, rq: Request, now: Instant)
    requires SetState(db, dir, user, rq, now).Done? && Revives(rq.step)
    ensures WritesRoute(db, dir, user, rq, now)
  {
    hide Process, MissionGiven, RouteReadable, MissionInTime;
    var courier := dir.courierOf[user];
    var db1 := WithCourier(db, courier, rq);
    SameForNewCourier(db, courier, rq, now);
    HandlerGetsThrough(db1, dir, user, courier, rq, now);
  }

  lemma SameNewest(routes: map<Id, Route>, routes': map<Id, Route>, r: Id)
    requires r in routes && routes'.Keys == routes.Keys
    requires forall x <- routes :: routes'[x].terminalId == routes[x].terminalId
                                   && routes'[x].createdAt == routes[x].createdAt
    ensures Newest(routes', r) <==> Newest(routes, r)
  {
  }

  /** Reviving a route keeps the invariant if and only if that route is the newest of its terminal. */
  lemma RevivalKeepsNewest(routes: map<Id, Route>, r: Id, row: Route)
    requires LiveIsNewest(routes) && r in routes && !Live(routes[r]) && Live(row)
    requires row.terminalId == routes[r].terminalId && row.createdAt == routes[r].createdAt
    ensures LiveIsNewest(routes[r := row]) <==> Newest(routes, r)
  {
    var routes' := routes[r := row];
    SameNewest(routes, routes', r);
    assert Live(routes'[r]);
    if Newest(routes, r) {
      forall x | x in routes' && Live(routes'[x]) ensures Newest(routes', x) {
        SameNewest(routes, routes', x);
      }
    }
  }

  /** Storing a new live route keeps the invariant if and only if its terminal has no live route. */
  lemma NewRouteKeepsNewest(routes: map<Id, Route>, id: Id, row: Route)
    requires LiveIsNewest(routes) && id !in routes && Live(row)
    requires forall r <- routes :: routes[r].createdAt < row.createdAt
    ensures LiveIsNewest(routes[id := row]) <==> NoLiveRoute(routes, row.terminalId)
  {
    var routes' := routes[id := row];
    if LiveIsNewest(routes') {
      forall r | r in routes && routes[r].terminalId == row.terminalId ensures !Live(routes[r]) {
        assert routes'[id].createdAt == row.createdAt && routes'[r] == routes[r];
        assert !Newest(routes', r);
      }
    }
    if NoLiveRoute(routes, row.terminalId) {
      forall x | x in routes' && Live(routes'[x]) ensures Newest(routes', x) {
        if x != id {
          assert Newest(routes, x);
        }
      }
    }
  }

  // ---------------------------------------------------------------- when a generation keeps the invariant

  /** The check sees the live route of the terminal, if there is one. */
  ghost predicate Visible(routes: map<Id, Route>, terminal: Id) {
    AllRead(routes, Recent(routes, terminal)) || NoLiveRoute(routes, terminal)
  }

  /** The generation stores a new route. */
  predicate StoresNew(db: Db, dir: Directory, g: Generation) {
    var d := Decide(db, dir, g);
    d.Persist? && d.plan.active.None? && d.plan.routeId !in db.routes
  }

  /** A generation that stores a new route keeps the invariant if and only if the check could see a live one. */
  lemma StoredRouteKeepsNewest(db: Db, dir: Directory, g: Generation, now: Instant)
    requires LiveIsNewest(db.routes) && forall r <- db.routes :: db.routes[r].createdAt < now
    requires StoresNew(db, dir, g)
    ensures LiveIsNewest(WithRoute(db, Decide(db, dir, g).plan, now).routes)
       <==> Visible(db.routes, g.metadata.terminal)
  {
    hide Decide, CheckLive, RouteReadable, Recent, LiveIsNewest, AllRead, NoLiveRoute;
    var plan := Decide(db, dir, g).plan;
    DecidedPlanIsNew(db, dir, g);
    CheckIsExact(db.routes, g.metadata.terminal);
    NewRouteKeepsNewest(db.routes, plan.routeId, plan.route.(createdAt := now));
  }

  /** Joining a scheduled route, or failing to store a new one, keeps it always. */
  lemma OtherPlansKeepNewest(db: Db, dir: Directory, g: Generation, now: Instant)
    requires LiveIsNewest(db.routes) && Decide(db, dir, g).Persist? && !StoresNew(db, dir, g)
    ensures LiveIsNewest(WithRoute(db, Decide(db, dir, g).plan, now).routes)
  {
    hide Decide, CheckLive, RouteReadable, Recent, LiveIsNewest, AllRead, NoLiveRoute;
    var plan := Decide(db, dir, g).plan;
    DecidedPlanIsNew(db, dir, g);
    CheckIsExact(db.routes, g.metadata.terminal);
    if plan.active.Some? {
      assert NoRevival(db.routes, WithRoute(db, plan, now).routes);
      StaysNewest(db.routes, WithRoute(db, plan, now).routes);
    }
  }

  /** With an unreadable row among the newest hundred, a route stored beside a live one makes two. */
  lemma SecondLiveRoute(db: Db, dir: Directory, g: Generation, now: Instant)
    returns (r: Id, r': Id)
    requires var db1 := AfterSweep(db, TimeOf(now));
      && LiveIsNewest(db1.routes) && StoresNew(db1, dir, g) && !Visible(db1.routes, g.metadata.terminal)
    ensures var routes := AfterGenerate(db, dir, g, now).routes;
      && r in routes && r' in routes && r != r' && Live(routes[r]) && Live(routes[r'])
      && routes[r].terminalId == routes[r'].terminalId == g.metadata.terminal
  {
    hide AfterSweep, Decide, RouteReadable, Recent, LiveIsNewest, AllRead, PersistState;
    var db1 := AfterSweep(db, TimeOf(now));
    var plan := Decide(db1, dir, g).plan;
    DecidedPlanIsNew(db1, dir, g);
    r :| r in db1.routes && db1.routes[r].terminalId == g.metadata.terminal && Live(db1.routes[r]);
    r' := plan.routeId;
    StageRoutes(db1, plan, now, 1 + |plan.orders| + |plan.missions|);
  }

  // ---------------------------------------------------------------- every step

  /** Routes keep their terminal and creation time, and none that is over becomes live. */
  ghost predicate NoRevival(routes: map<Id, Route>, routes': map<Id, Route>) {
    && routes'.Keys == routes.Keys
    && forall r <- routes :: routes'[r].terminalId == routes[r].terminalId
                             && routes'[r].createdAt == routes[r].createdAt && (Live(routes'[r]) ==> Live(routes[r]))
  }

  lemma StaysNewest(routes: map<Id, Route>, routes': map<Id, Route>)
    requires LiveIsNewest(routes) && NoRevival(routes, routes')
    ensures LiveIsNewest(routes')
  {
    forall r | r in routes' && Live(routes'[r]) ensures Newest(routes', r) {
      assert Newest(routes, r);
    }
  }

  lemma SweepRevivesNothing(db: Db, t: Time, mid: Db)
    requires DuringSweep(db, t, mid)
    ensures NoRevival(db.routes, mid.routes)
  {
    var rs, ms, os :| SweepProgress(db, t, rs, ms, os) && mid == SweepState(db, rs, ms, os);
  }

  lemma CancelRevivesNothing(db: Db, rid: Id, mid: Db)
    requires DuringCancel(db, rid, mid)
    ensures NoRevival(db.routes, mid.routes)
  {
  }

  ghost predicate CreatedBy(routes: map<Id, Route>, clock: Instant) {
    forall r <- routes :: routes[r].createdAt <= clock
  }

  /** A request that would revive a route addresses the newest of its terminal. */
  ghost predicate RequestKeepsOne(db: Db, dir: Directory, user: Id, rq: Request, now: Instant) {
    rq.route in db.routes && !Live(db.routes[rq.route]) && Revives(rq.step) && WritesRoute(db, dir, user, rq, now) ==>
      Newest(db.routes, rq.route)
  }

  /** A generation that stores a new route could see a live one. */
  ghost predicate GenerationKeepsOne(db: Db, dir: Directory, g: Generation, now: Instant) {
    var db1 := AfterSweep(db, TimeOf(now));
    StoresNew(db1, dir, g) ==> Visible(db1.routes, g.metadata.terminal)
  }

  ghost predicate KeepsOneLive(db: Db, dir: Directory, e: Event) {
    match e.op
    case Generate(g) => GenerationKeepsOne(db, dir, g, e.at)
    case GenerateInterrupted(g) => GenerationKeepsOne(db, dir, g, e.at)
    case Courier(user, rq) => RequestKeepsOne(db, dir, user, rq, e.at)
    case CourierInterrupted(user, rq) => RequestKeepsOne(db, dir, user, rq, e.at)
    case _ => true
  }

  /** A request changes no route but its own, and of that neither terminal nor creation time. */
  lemma RequestRoutes(db: Db, dir: Directory, user: Id, rq: Request, now: Instant)
    ensures var end := SetState(db, dir, user, rq, now).db;
      && end.routes.Keys == db.routes.Keys
      && forall r <- db.routes ::
           && end.routes[r].terminalId == db.routes[r].terminalId && end.routes[r].createdAt == db.routes[r].createdAt
           && (r != rq.route ==> end.routes[r] == db.routes[r])
  {
    hide SetState, SamePlan, SameOrder;
    SetStateFrame(db, dir, user, rq, now);
  }

  lemma RequestKeepsNewest(db: Db, dir: Directory, user: Id, rq: Request, now: Instant)
    requires LiveIsNewest(db.routes)
    ensures LiveIsNewest(SetState(db, dir, user, rq, now).db.routes) <==> RequestKeepsOne(db, dir, user, rq, now)
  {
    hide SetState, LiveIsNewest, Newest, WritesRoute;
    var end := SetState(db, dir, user, rq, now).db;
    RequestRoutes(db, dir, user, rq, now);
    if rq.route in db.routes {
      RequestStatus(db, dir, user, rq, now);
      if !Live(db.routes[rq.route]) && Live(end.routes[rq.route]) {
        assert end.routes == db.routes[rq.route := end.routes[rq.route]];
        RevivalKeepsNewest(db.routes, rq.route, end.routes[rq.route]);
      } else {
        StaysNewest(db.routes, end.routes);
      }
    } else {
      StaysNewest(db.routes, end.routes);
    }
  }

  lemma StageKeepsNewest(db: Db, dir: Directory, user: Id, rq: Request, now: Instant, mid: Db)
    requires LiveIsNewest(db.routes) && RequestKeepsOne(db, dir, user, rq, now)
    requires DuringCourier(db, dir, user, rq, now, mid)
    ensures LiveIsNewest(mid.routes)
  {
    hide SetState, DuringCourier, LiveIsNewest, RequestKeepsOne;
    CommitsMix(db, dir, user, rq, now, mid);
    RequestKeepsNewest(db, dir, user, rq, now);
  }

  lemma SweptRoutes(db: Db, t: Time, clock: Instant)
    requires LiveIsNewest(db.routes) && CreatedBy(db.routes, clock)
    ensures LiveIsNewest(AfterSweep(db, t).routes) && CreatedBy(AfterSweep(db, t).routes, clock)
  {
    hide LiveIsNewest, AfterSweep, DuringSweep;
    SweepIsStage(db, t);
    SweepRevivesNothing(db, t, AfterSweep(db, t));
    StaysNewest(db.routes, AfterSweep(db, t).routes);
  }

  lemma PlanKeepsNewest(db: Db, dir: Directory, g: Generation, now: Instant)
    requires LiveIsNewest(db.routes) && forall r <- db.routes :: db.routes[r].createdAt < now
    requires Decide(db, dir, g).Persist?
    ensures LiveIsNewest(WithRoute(db, Decide(db, dir, g).plan, now).routes)
       <==> (StoresNew(db, dir, g) ==> Visible(db.routes, g.metadata.terminal))
  {
    hide LiveIsNewest, Decide, WithRoute, Visible;
    if StoresNew(db, dir, g) {
      StoredRouteKeepsNewest(db, dir, g, now);
    } else {
      OtherPlansKeepNewest(db, dir, g, now);
    }
  }

  lemma GenerationKeepsNewest(db: Db, dir: Directory, g: Generation, now: Instant, clock: Instant)
    requires LiveIsNewest(db.routes) && CreatedBy(db.routes, clock) && clock < now
    ensures LiveIsNewest(AfterGenerate(db, dir, g, now).routes) <==> GenerationKeepsOne(db, dir, g, now)
  {
    hide LiveIsNewest, AfterSweep, Decide, WithRoute, Visible, PersistState;
    var db1 := AfterSweep(db, TimeOf(now));
    SweptRoutes(db, TimeOf(now), clock);
    if Decide(db1, dir, g).Persist? {
      PlanKeepsNewest(db1, dir, g, now);
      var plan := Decide(db1, dir, g).plan;
      StageRoutes(db1, plan, now, 1 + |plan.orders| + |plan.missions|);
    }
  }

  lemma GenerationStageKeepsNewest(db: Db, dir: Directory, g: Generation, now: Instant, clock: Instant, mid: Db)
    requires LiveIsNewest(db.routes) && CreatedBy(db.routes, clock) && clock < now
    requires GenerationKeepsOne(db, dir, g, now) && DuringGenerate(db, dir, g, now, mid)
    ensures LiveIsNewest(mid.routes)
  {
    hide LiveIsNewest, AfterSweep, Decide, WithRoute, Visible, PersistState, DuringSweep;
    var t := TimeOf(now);
    var db1 := AfterSweep(db, t);
    SweptRoutes(db, t, clock);
    if DuringSweep(db, t, mid) {
      SweepRevivesNothing(db, t, mid);
      StaysNewest(db.routes, mid.routes);
    } else if Decide(db1, dir, g).Persist? {
      PlanKeepsNewest(db1, dir, g, now);
      var plan := Decide(db1, dir, g).plan;
      var k: nat :| k <= 1 + |plan.orders| + |plan.missions| && mid == PersistState(db1, plan, now, k);
      StageRoutes(db1, plan, now, k);
    }
  }

  /** The invariant holds after an uninterrupted event if and only if the event keeps to its guard. */
  lemma StepKeepsNewest(db: Db, dir: Directory, e: Event, next: Db, clock: Instant)
    requires LiveIsNewest(db.routes) && CreatedBy(db.routes, clock) && clock < e.at && Leads(db, dir, e, next)
    ensures KeepsOneLive(db, dir, e) ==> LiveIsNewest(next.routes)
    ensures !e.op.GenerateInterrupted? && !e.op.CourierInterrupted? && LiveIsNewest(next.routes) ==>
              KeepsOneLive(db, dir, e)
  {
    hide LiveIsNewest, DuringGenerate, AfterGenerate, DuringCancel, AfterCancel, SetState, DuringCourier, Scan,
      AfterOrderCall, NoRevival, GenerationKeepsOne, RequestKeepsOne, CreatedBy;
    match e.op {
      case Generate(g) => GenerationKeepsNewest(db, dir, g, e.at, clock);
      case GenerateInterrupted(g) =>
        if GenerationKeepsOne(db, dir, g, e.at) {
          GenerationStageKeepsNewest(db, dir, g, e.at, clock, next);
        }
      case Cancel(rid) =>
        WholeCancellationIsAStage(db, rid);
        CancelRevivesNothing(db, rid, next);
        StaysNewest(db.routes, next.routes);
      case CancelInterrupted(rid) =>
        CancelRevivesNothing(db, rid, next);
        StaysNewest(db.routes, next.routes);
      case Courier(user, rq) => RequestKeepsNewest(db, dir, user, rq, e.at);
      case CourierInterrupted(user, rq) =>
        if RequestKeepsOne(db, dir, user, rq, e.at) {
          StageKeepsNewest(db, dir, user, rq, e.at, next);
        }
      case ScanParcel(rid, barcode) => ScanLosesNoRow(db, rid, barcode, e.at);
      case OrderChange(c) => OrderCallLosesNoRow(db, c);
    }
  }

  lemma StepCreatedBy(db: Db, dir: Directory, e: Event, next: Db, clock: Instant)
    requires CreatedBy(db.routes, clock) && clock <= e.at && Leads(db, dir, e, next)
    ensures CreatedBy(next.routes, e.at)
  {
    hide DuringGenerate, AfterGenerate, DuringCancel, AfterCancel, SetState, DuringCourier, Scan, AfterOrderCall;
    match e.op {
      case Generate(g) =>
        WholeGenerationIsAStage(db, dir, g, e.at);
        GenerateCreatedBy(db, dir, g, e.at, next);
      case GenerateInterrupted(g) => GenerateCreatedBy(db, dir, g, e.at, next);
      case Cancel(rid) =>
        WholeCancellationIsAStage(db, rid);
        CancelRevivesNothing(db, rid, next);
      case CancelInterrupted(rid) => CancelRevivesNothing(db, rid, next);
      case Courier(user, rq) => RequestRoutes(db, dir, user, rq, e.at);
      case CourierInterrupted(user, rq) =>
        CommitsMix(db, dir, user, rq, e.at, next);
        RequestRoutes(db, dir, user, rq, e.at);
      case ScanParcel(rid, barcode) => ScanLosesNoRow(db, rid, barcode, e.at);
      case OrderChange(c) => OrderCallLosesNoRow(db, c);
    }
  }

  lemma GenerateCreatedBy(db: Db, dir: Directory, g: Generation, now: Instant, mid: Db)
    requires CreatedBy(db.routes, now) && DuringGenerate(db, dir, g, now, mid)
    ensures CreatedBy(mid.routes, now)
  {
    hide AfterSweep, Decide, DuringSweep, PersistState, RouteReadable;
    var t := TimeOf(now);
    var db1 := AfterSweep(db, t);
    SweepIsStage(db, t);
    SweepRevivesNothing(db, t, db1);
    if DuringSweep(db, t, mid) {
      SweepRevivesNothing(db, t, mid);
    } else if Decide(db1, dir, g).Persist? {
      var plan := Decide(db1, dir, g).plan;
      var k: nat :| k <= 1 + |plan.orders| + |plan.missions| && mid == PersistState(db1, plan, now, k);
      StageRoutes(db1, plan, now, k);
    }
  }

  // ---------------------------------------------------------------- runs

  /** The clock strictly advances, over any number of days. */
  predicate Advancing(start: Instant, events: seq<Event>) {
    && (forall i :: 0 <= i < |events| ==> start < events[i].at)
    && (forall i, j :: 0 <= i < j < |events| ==> events[i].at < events[j].at)
  }

  lemma {:induction false} CreatedByClock(dir: Directory, states: seq<Db>, events: seq<Event>, k: nat, start: Instant)
    requires Run(dir, states, events) && k <= |events| && Advancing(start, events)
    requires CreatedBy(states[0].routes, start)
    ensures CreatedBy(states[k].routes, ClockAt(start, events, k))
  {
    hide CreatedBy, Supplied, Leads;
    if k == 0 {
    } else {
      CreatedByClock(dir, states, events, k - 1, start);
      RunStep(dir, states, events, k - 1);
      StepCreatedBy(states[k - 1], dir, events[k - 1], states[k], ClockAt(start, events, k - 1));
    }
  }

  /**
   One live route per terminal. In every run over any number of days, interrupted anywhere, in which no
   request revives a route but the newest of its terminal and no generation stores a route at a terminal whose
   live route an unreadable row hides, each live route is newer than all other routes of its terminal.
   */
  lemma {:induction false} OneLiveRoutePerTerminal(dir: Directory, states: seq<Db>, events: seq<Event>, k: nat,
                                                   start: Instant)
    requires Run(dir, states, events) && k <= |events| && Advancing(start, events)
    requires CreatedBy(states[0].routes, start) && LiveIsNewest(states[0].routes)
    requires forall i :: 0 <= i < k ==> KeepsOneLive(states[i], dir, events[i])
    ensures LiveIsNewest(states[k].routes)
  {
    hide Supplied, Leads, LiveIsNewest, KeepsOneLive, CreatedBy;
    if k == 0 {
    } else {
      OneLiveRoutePerTerminal(dir, states, events, k - 1, start);
      CreatedByClock(dir, states, events, k - 1, start);
      RunStep(dir, states, events, k - 1);
      StepKeepsNewest(states[k - 1], dir, events[k - 1], states[k], ClockAt(start, events, k - 1));
    }
  }

  /** In a run without interruptions it holds in all states if and only if every event keeps to its guard. */
  lemma {:induction false} OneLiveRouteExactly(dir: Directory, states: seq<Db>, events: seq<Event>, k: nat,
                                               start: Instant)
    requires Run(dir, states, events) && k <= |events| && Advancing(start, events)
    requires CreatedBy(states[0].routes, start) && LiveIsNewest(states[0].routes)
    requires forall i :: 0 <= i < k ==> !events[i].op.GenerateInterrupted? && !events[i].op.CourierInterrupted?
    ensures (forall i :: 0 <= i <= k ==> LiveIsNewest(states[i].routes))
       <==> forall i :: 0 <= i < k ==> KeepsOneLive(states[i], dir, events[i])
  {
    hide Supplied, Leads, LiveIsNewest, KeepsOneLive, CreatedBy;
    if k == 0 {
    } else {
      OneLiveRouteExactly(dir, states, events, k - 1, start);
      if LiveIsNewest(states[k - 1].routes) {
        CreatedByClock(dir, states, events, k - 1, start);
        RunStep(dir, states, events, k - 1);
        StepKeepsNewest(states[k - 1], dir, events[k - 1], states[k], ClockAt(start, events, k - 1));
      }
    }
  }

  /** In particular within one day, from readable tables, while couriers address only routes that are not over. */
  lemma OneLiveRouteWithinADay(dir: Directory, states: seq<Db>, events: seq<Event>, k: nat, start: Instant)
    requires Run(dir, states, events) && k <= |events| && Steady(start, events)
    requires AllReadable(states[0]) && TimesKept(states[0], TimeOf(start)) && LiveAreOpen(states[0].routes)
    requires CreatedBy(states[0].routes, start) && LiveIsNewest(states[0].routes)
    requires forall i :: 0 <= i < k ==> OnLiveRoute(states[i], events[i])
    ensures LiveIsNewest(states[k].routes)
    ensures forall r <- states[k].routes :: Live(states[k].routes[r]) ==>
              r in RecentRoutes(states[k].routes, states[k].routes[r].terminalId)
  {
    hide Supplied, Leads, LiveIsNewest, KeepsOneLive, CreatedBy, AllReadable, TimesKept, LiveAreOpen, RecentRoutes,
      Recent, AllRead, OnLiveRoute;
    forall i | 0 <= i < k ensures KeepsOneLive(states[i], dir, events[i]) {
      LiveRequestsStayReadable(dir, states, events, i, start);
      ReadableKeepsOne(states[i], dir, events[i]);
    }
    OneLiveRoutePerTerminal(dir, states, events, k, start);
    LiveRequestsStayReadable(dir, states, events, k, start);
    forall r | r in states[k].routes && Live(states[k].routes[r])
      ensures r in RecentRoutes(states[k].routes, states[k].routes[r].terminalId)
    {
      ReadableIsAllRead(states[k], states[k].routes[r].terminalId);
      LookupFindsTheLiveRoute(states[k].routes, r);
    }
  }

  lemma ReadableIsAllRead(db: Db, terminal: Id)
    requires AllReadable(db)
    ensures AllRead(db.routes, Recent(db.routes, terminal))
  {
    hide RouteReadable, MissionReadable, NewerRoutes;
  }

  lemma ReadableKeepsOne(db: Db, dir: Directory, e: Event)
    requires AllReadable(db) && OnLiveRoute(db, e)
    ensures KeepsOneLive(db, dir, e)
  {
    hide AllReadable, AfterSweep, AllRead, StoresNew, OnlyStatuses, WritesRoute, Newest;
    if e.op.Generate? || e.op.GenerateInterrupted? {
      var t := TimeOf(e.at);
      SweepIsStage(db, t);
      SweepWritesStatuses(db, t, AfterSweep(db, t));
      StatusesLoseNoRow(db, AfterSweep(db, t));
      ReadableStays(db, AfterSweep(db, t));
      ReadableIsAllRead(AfterSweep(db, t), e.op.g.metadata.terminal);
    }
  }

  // ---------------------------------------------------------------- two live routes

  /**
   A finish at or before the time of day of the start -- past midnight -- hides its terminal: the row can no
   longer be read, and the check finds nothing there, live routes included.
   */
  lemma OvernightFinishHidesTheTerminal(db: Db, dir: Directory, user: Id, rq: Request, now: Instant)
    requires rq.step.FinishRoute? && WritesRoute(db, dir, user, rq, now)
    requires !RouteInTime(db.routes[rq.route], rq.step, TimeOf(now))
    requires |NewerRoutes(db.routes, rq.route)| < PAGE
    ensures var r := SetState(db, dir, user, rq, now);
            var terminal := db.routes[rq.route].terminalId;
      && r.Raised? && RecentRoutes(r.db.routes, terminal) == {} && CheckLive(r.db.routes, terminal) == NoneLive
  {
    hide SetState, RouteReadable, SamePlan, SameOrder, NewerRoutes, MissionInTime;
    var after := SetState(db, dir, user, rq, now).db;
    SucceedsExactlyInTime(db, dir, user, rq, now);
    FinishedUnreadable(db, dir, user, rq, now);
    SetStateFrame(db, dir, user, rq, now);
    SameNewer(db, after, rq.route);
    assert rq.route in Recent(after.routes, db.routes[rq.route].terminalId);
    RecentIs(after.routes, db.routes[rq.route].terminalId);
  }

  lemma FinishedUnreadable(db: Db, dir: Directory, user: Id, rq: Request, now: Instant)
    requires rq.step.FinishRoute? && WritesRoute(db, dir, user, rq, now)
    requires !RouteInTime(db.routes[rq.route], rq.step, TimeOf(now))
    ensures var end := SetState(db, dir, user, rq, now).db;
      rq.route in end.routes && !RouteReadable(end.routes[rq.route])
  {
    hide Process, MissionGiven, MissionInTime, LosesNoRoute;
    var courier := dir.courierOf[user];
    var db1 := WithCourier(db, courier, rq);
    SameForNewCourier(db, courier, rq, now);
    HandlerRoute(db1, dir, user, courier, rq, now);
  }

  lemma SameNewer(db: Db, db': Db, rid: Id)
    requires rid in db.routes && Framed(db, db', rid)
    ensures NewerRoutes(db'.routes, rid) == NewerRoutes(db.routes, rid)
  {
    hide SamePlan, SameOrder;
  }
}
