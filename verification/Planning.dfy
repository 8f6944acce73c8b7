/** What planning, cancelling and sweeping do to the tables. */
module Planning {
  import opened Base
  import opened Domain
  import opened Tables
  import opened Store
  import opened SolverOutput
  import Billing

  // ---------------------------------------------------------------- cancelling a route

  function OrdersOf(missions: map<Id, Mission>, rows: set<Id>): set<Id>
    requires rows <= missions.Keys
  {
    set m | m in rows :: missions[m].orderId
  }

  function WithUnassigned(orders: map<Id, Order>, rows: set<Id>): map<Id, Order> {
    map o | o in orders :: if o in rows then Restatus(orders[o], OrderStatus.Unassigned) else orders[o]
  }

  function WithCancelled(missions: map<Id, Mission>, rows: set<Id>): map<Id, Mission> {
    map m | m in missions ::
      if m in rows then missions[m].(status := Some(Known(MissionStatus.Cancelled))) else missions[m]
  }

  function WithCancelledRoutes(routes: map<Id, Route>, rows: set<Id>): map<Id, Route> {
    map r | r in routes :: if r in rows then routes[r].(status := RouteStatus.Cancelled) else routes[r]
  }

  /** A cancellation of route `rid` with the missions `ms` cancelled and the orders of `os` released. */
  function CancelState(db: Db, rid: Id, ms: set<Id>, os: set<Id>): Db
    requires os <= db.missions.Keys
  {
    db.(routes := WithCancelledRoutes(db.routes, {rid}),
        missions := WithCancelled(db.missions, ms),
        orders := WithUnassigned(db.orders, OrdersOf(db.missions, os)))
  }

  /** cancel_route: the missions it can read (the first hundred by position) and their orders follow. */
  function AfterCancel(db: Db, rid: Id): Db {
    if rid !in db.routes || !RouteReadable(db.routes[rid]) then db
    else
      CancelState(db, rid, PageOf(db.missions, rid), PageOf(db.missions, rid))
  }

  /** The states between the commits of a cancellation: the route, then its missions, then their orders. */
  ghost predicate DuringCancel(db: Db, rid: Id, mid: Db) {
    || mid == db
    || (rid in db.routes && RouteReadable(db.routes[rid])
        && exists ms, os :: CancelProgress(db, rid, ms, os) && mid == CancelState(db, rid, ms, os))
  }

  ghost predicate CancelProgress(db: Db, rid: Id, ms: set<Id>, os: set<Id>) {
    var page := PageOf(db.missions, rid);
    ms <= page && os <= page && (os == {} || ms == page)
  }

  ghost predicate OnlyCancelStages(db: Db, rid: Id, commits: seq<Db>) {
    forall mid <- commits :: DuringCancel(db, rid, mid)
  }

  // ---------------------------------------------------------------- the passed-shift sweep

  /** Unfinished although its shift has ended. */
  predicate Expired(r: Route, t: Time) {
    r.finish < t && Live(r)
  }

  function ExpiredRoutes(routes: map<Id, Route>, t: Time): set<Id> {
    set r | r in routes && Expired(routes[r], t)
  }

  /** The routes a sweep works on: one row that cannot be read empties the whole result. */
  function Swept(routes: map<Id, Route>, t: Time): set<Id> {
    var expired := ExpiredRoutes(routes, t);
    if forall r <- expired :: RouteReadable(routes[r]) then expired else {}
  }

  /** The missions a sweep reaches. */
  function Reached(db: Db, t: Time): (rows: set<Id>)
    ensures rows <= db.missions.Keys
  {
    set m | m in db.missions && db.missions[m].routeId in Swept(db.routes, t)
            && m in PageOf(db.missions, db.missions[m].routeId)
  }

  function ReachedOn(db: Db, t: Time, rs: set<Id>): (rows: set<Id>)
    ensures rows <= db.missions.Keys
  {
    set m | m in Reached(db, t) && db.missions[m].routeId in rs
  }

  predicate IsDelivered(m: Mission) {
    m.status == Some(Known(MissionStatus.Delivered))
  }

  function NotDelivered(missions: map<Id, Mission>, rows: set<Id>): set<Id>
    requires rows <= missions.Keys
  {
    set m | m in rows && !IsDelivered(missions[m])
  }

  /**
   A sweep of `db` with the routes `rs` done, the missions `ms` passed, and the orders of the missions `os`
   released.
   */
  function SweepState(db: Db, rs: set<Id>, ms: set<Id>, os: set<Id>): Db
    requires ms <= db.missions.Keys && os <= db.missions.Keys
  {
    db.(routes := WithCancelledRoutes(db.routes, rs),
        missions := WithCancelled(db.missions, NotDelivered(db.missions, ms)),
        orders := WithUnassigned(db.orders, OrdersOf(db.missions, os)))
  }

  /** The states between the commits of a sweep: a route is done only after all the missions it reaches. */
  ghost predicate SweepProgress(db: Db, t: Time, rs: set<Id>, ms: set<Id>, os: set<Id>) {
    && rs <= Swept(db.routes, t) && os <= ms <= Reached(db, t)
    && (forall m <- Reached(db, t) :: db.missions[m].routeId in rs ==> m in os)
  }

  ghost predicate DuringSweep(db: Db, t: Time, mid: Db) {
    exists rs, ms, os :: SweepProgress(db, t, rs, ms, os) && mid == SweepState(db, rs, ms, os)
  }

  /** Every one of the commits is a legal stage of the sweep. */
  ghost predicate OnlyStages(db: Db, t: Time, commits: seq<Db>) {
    forall mid <- commits :: DuringSweep(db, t, mid)
  }

  function AfterSweep(db: Db, t: Time): Db {
    SweepState(db, Swept(db.routes, t), Reached(db, t), Reached(db, t))
  }

  // ---------------------------------------------------------------- the live-route check

  /** ORDER BY created_at DESC; equal times by row id. */
  predicate Newer(routes: map<Id, Route>, a: Id, b: Id)
    requires a in routes && b in routes
  {
    routes[a].createdAt > routes[b].createdAt || (routes[a].createdAt == routes[b].createdAt && a < b)
  }

  function NewerRoutes(routes: map<Id, Route>, r: Id): set<Id>
    requires r in routes
  {
    set r' | r' in routes && routes[r'].terminalId == routes[r].terminalId && Newer(routes, r', r)
  }

  /** RouteRepository.get_by_terminal_id: the newest hundred, or nothing if one of them cannot be read. */
  function RecentRoutes(routes: map<Id, Route>, terminal: Id): set<Id> {
    var rows := set r | r in routes && routes[r].terminalId == terminal && |NewerRoutes(routes, r)| < PAGE;
    if forall r <- rows :: RouteReadable(routes[r]) then rows else {}
  }

  predicate OnTheRoad(r: Route) {
    r.status in {RouteStatus.Ongoing, RouteStatus.Loading, RouteStatus.ReturnToHub}
  }

  predicate OldestScheduled(routes: map<Id, Route>, rows: set<Id>, r: Id)
    requires rows <= routes.Keys
  {
    && r in rows && routes[r].status == RouteStatus.Scheduled
    && forall r' <- rows :: routes[r'].status == RouteStatus.Scheduled && r' != r ==> Newer(routes, r', r)
  }

  datatype LiveCheck = Blocked | Join(route: Id) | NoneLive

  /** The scan of the recent routes: a route on the road blocks; otherwise the last scheduled one met is joined. */
  function CheckLive(routes: map<Id, Route>, terminal: Id): LiveCheck {
    var rows := RecentRoutes(routes, terminal);
    if exists r <- rows :: OnTheRoad(routes[r]) then Blocked
    else if exists r <- rows :: OldestScheduled(routes, rows, r) then
      assert forall r <- rows, r' <- rows ::
          OldestScheduled(routes, rows, r) && OldestScheduled(routes, rows, r') ==> r == r';
      var r :| r in rows && OldestScheduled(routes, rows, r);
      Join(r)
    else NoneLive
  }

  // ---------------------------------------------------------------- persisting a plan

  /** What is persisted: `active` is the scheduled route that is joined, if any. */
  datatype Plan = Plan(
    routeId: Id,
    route: Route,
    missions: seq<Planned>,
    orders: seq<Id>,
    unassigned: set<Id>,
    active: Option<Id>
  )

  /** The id under which the plan's route is stored. */
  function StoredRoute(plan: Plan): Id {
    if plan.active.Some? then plan.active.value else plan.routeId
  }

  predicate RouteStorable(db: Db, plan: Plan) {
    if plan.active.Some? then plan.active.value in db.routes && RouteReadable(JoinedRoute(db, plan))
    else plan.routeId !in db.routes && RouteReadable(plan.route)
  }

  /** Joining overwrites the scheduled route's row but not its owner columns. */
  function JoinedRoute(db: Db, plan: Plan): Route
    requires plan.active.Some? && plan.active.value in db.routes
  {
    OverwriteRoute(db.routes[plan.active.value], plan.route)
  }

  function WithRoute(db: Db, plan: Plan, now: Instant): Db {
    if plan.active.Some? then
      if plan.active.value in db.routes then db.(routes := db.routes[plan.active.value := JoinedRoute(db, plan)])
      else db
    else if plan.routeId in db.routes then db
    else db.(routes := db.routes[plan.routeId := plan.route.(createdAt := now)])
  }

  function PlannedStatus(plan: Plan, o: Id): OrderStatus {
    if o in plan.unassigned then OrderStatus.Unassigned else OrderStatus.Scheduled
  }

  /** The statuses of the first `k` orders written. */
  function WithStatuses(orders: map<Id, Order>, plan: Plan, k: nat): map<Id, Order>
    requires k <= |plan.orders|
  {
    map o | o in orders ::
      if o in plan.orders[..k] then Restatus(orders[o], PlannedStatus(plan, o)) else orders[o]
  }

  /** The mission found for an order, unless its row cannot be read. */
  function ExistingMission(missions: map<Id, Mission>, order: Id): Option<Id> {
    var m := Sole(MissionsFor(missions, order));
    if m.One? && m.id in missions && MissionReadable(missions[m.id]) then Some(m.id) else None
  }

  predicate MissionStorable(db: Db, p: Planned) {
    var m := ExistingMission(db.missions, p.row.orderId);
    if m.Some? then MissionReadable(MergeMission(db.missions[m.value], p.row))
    else CanInsert(db, p.id, p.row) && MissionReadable(p.row)
  }

  /** An order's earlier mission is updated and keeps its route; otherwise a mission is inserted. */
  function WithMission(db: Db, p: Planned): Db {
    var m := ExistingMission(db.missions, p.row.orderId);
    if m.Some? then db.(missions := db.missions[m.value := MergeMission(db.missions[m.value], p.row)])
    else if CanInsert(db, p.id, p.row) then db.(missions := db.missions[p.id := StoredMission(p.row)])
    else db
  }

  /** The tables after the first `k` missions, up to and including the first that cannot be stored. */
  function WithMissions(db: Db, ps: seq<Planned>, k: nat): Db
    requires k <= |ps|
  {
    if k == 0 then db
    else
      var before := WithMissions(db, ps, k - 1);
      if MissionsStorable(db, ps, k - 1) then WithMission(before, ps[k - 1]) else before
  }

  predicate MissionsStorable(db: Db, ps: seq<Planned>, k: nat)
    requires k <= |ps|
  {
    k == 0 || (MissionsStorable(db, ps, k - 1) && MissionStorable(WithMissions(db, ps, k - 1), ps[k - 1]))
  }

  /** What the missions are inserted into: the new route is stored and all statuses are written. */
  function Prepared(db: Db, plan: Plan, now: Instant): Db {
    WithRoute(db, plan, now).(orders := WithStatuses(db.orders, plan, |plan.orders|))
  }

  /** The tables after `k` of the writes of a plan: the route, then the orders, then the missions. */
  function PersistState(db: Db, plan: Plan, now: Instant, k: nat): Db
    requires k <= 1 + |plan.orders| + |plan.missions|
  {
    if k == 0 then db
    else
      var db1 := WithRoute(db, plan, now);
      if !RouteStorable(db, plan) then db1
      else if k <= 1 + |plan.orders| then db1.(orders := WithStatuses(db.orders, plan, k - 1))
      else
        WithMissions(db1.(orders := WithStatuses(db.orders, plan, |plan.orders|)), plan.missions, k - 1 - |plan.orders|)
  }

  /** The states between the commits of a plan. */
  ghost predicate DuringPersist(db: Db, plan: Plan, now: Instant, mid: Db) {
    exists k: nat :: k <= 1 + |plan.orders| + |plan.missions| && mid == PersistState(db, plan, now, k)
  }

  ghost predicate OnlyPersistStages(db: Db, plan: Plan, now: Instant, commits: seq<Db>) {
    forall mid <- commits :: DuringPersist(db, plan, now, mid)
  }

  predicate Persists(db: Db, plan: Plan, now: Instant) {
    && RouteStorable(db, plan)
    && MissionsStorable(WithRoute(db, plan, now).(orders := WithStatuses(db.orders, plan, |plan.orders|)),
                        plan.missions, |plan.missions|)
  }

  function AfterPersist(db: Db, plan: Plan, now: Instant): Db {
    PersistState(db, plan, now, 1 + |plan.orders| + |plan.missions|)
  }

  // ---------------------------------------------------------------- generating a route

  /** A generation request with what its collaborators answer. `fetched` is the database's row order. */
  datatype Generation = Generation(
    user: Id,
    requested: seq<Id>,
    fetched: seq<Id>,
    metadata: Metadata,
    entitiesFound: bool,
    response: Option<Response>
  )

  /** The rows the database returns for the requested ids: those that exist, once each, in any order. */
  ghost predicate FetchedRows(orders: map<Id, Order>, requested: seq<Id>, fetched: seq<Id>) {
    && (forall o :: o in fetched <==> o in requested && o in orders)
    && (forall i, j :: 0 <= i < j < |fetched| ==> fetched[i] != fetched[j])
  }

  predicate Plannable(o: Order, courier: Id, terminal: Id, shift: Id) {
    && o.status in {OrderStatus.Registered, OrderStatus.Unassigned, OrderStatus.Scheduled}
    && o.courierId == courier && o.terminalId == terminal && o.shiftId == shift
  }

  /** How far a request gets after the sweep: refused, nothing routed, or a plan to persist. */
  datatype Decision = Refused | NothingRouted | Persist(plan: Plan)

  function Decide(db: Db, dir: Directory, g: Generation): Decision {
    var live := CheckLive(db.routes, g.metadata.terminal);
    if !Billing.CanGenerate(db.usage, dir, g.user, |g.requested|) || live.Blocked? then Refused
    else if g.fetched == [] || !g.entitiesFound || g.response.None?
            || !(forall o <- g.fetched ::
                   o in db.orders && Plannable(db.orders[o], g.metadata.courier, g.metadata.terminal, g.metadata.shift))
    then Refused
    else if g.response.value.routes == [] then NothingRouted
    else
      var sr := g.response.value.routes[0];
      var missions := MapSteps(sr.steps, g.metadata.routeId);
      var route := RouteOf(sr, g.metadata, |missions|);
      if missions == [] then NothingRouted
      else if route.None? then Refused
      else
        Persist(Plan(g.metadata.routeId, route.value, missions, g.fetched, set o | o in g.response.value.unassigned,
                     if live.Join? then Some(live.route) else None))
  }

  function AllUnassigned(db: Db, fetched: seq<Id>): Db {
    db.(orders := WithUnassigned(db.orders, set o | o in fetched))
  }

  /** The states between the commits that release the fetched orders. */
  ghost predicate DuringRelease(db: Db, fetched: seq<Id>, mid: Db) {
    exists k: nat :: k <= |fetched| && mid == AllUnassigned(db, fetched[..k])
  }

  ghost predicate OnlyReleaseStages(db: Db, fetched: seq<Id>, commits: seq<Db>) {
    forall mid <- commits :: DuringRelease(db, fetched, mid)
  }

  /** The states between the commits of a generation. */
  ghost predicate DuringGenerate(db: Db, dir: Directory, g: Generation, now: Instant, mid: Db) {
    || DuringSweep(db, TimeOf(now), mid)
    || var db1 := AfterSweep(db, TimeOf(now));
       match Decide(db1, dir, g)
       case Refused => false
       case NothingRouted => DuringRelease(db1, g.fetched, mid)
       case Persist(plan) => DuringPersist(db1, plan, now, mid)
  }

  ghost predicate OnlyGenerateStages(db: Db, dir: Directory, g: Generation, now: Instant, commits: seq<Db>) {
    forall mid <- commits :: DuringGenerate(db, dir, g, now, mid)
  }

  function AfterGenerate(db: Db, dir: Directory, g: Generation, now: Instant): Db {
    var db1 := AfterSweep(db, TimeOf(now));
    match Decide(db1, dir, g)
    case Refused => db1
    case NothingRouted => AllUnassigned(db1, g.fetched)
    case Persist(plan) => AfterPersist(db1, plan, now)
  }
}
