/** What persisting a plan on a fresh route makes of the requested orders. */
module PlanPartition {
  import opened Base
  import opened Domain
  import opened Tables
  import opened Store
  import opened SolverOutput
  import opened Planning
  import opened Walk

  // ---------------------------------------------------------------- inserting fresh missions

  function Inserted(missions: map<Id, Mission>, ps: seq<Planned>): map<Id, Mission> {
    if ps == [] then missions
    else
      var last := ps[|ps| - 1];
      Inserted(missions, ps[..|ps| - 1])[last.id := StoredMission(last.row)]
  }

  predicate Insertable(db: Db, p: Planned) {
    && p.id !in db.missions && p.row.routeId in db.routes && p.row.orderId in db.orders
    && MissionsFor(db.missions, p.row.orderId) == {} && MissionReadable(p.row)
  }

  ghost predicate AllFresh(db: Db, ps: seq<Planned>) {
    && (forall p <- ps :: Insertable(db, p))
    && (forall i, j :: 0 <= i < j < |ps| ==> ps[i].id != ps[j].id && ps[i].row.orderId != ps[j].row.orderId)
  }

  lemma {:induction false} InsertedRows(missions: map<Id, Mission>, ps: seq<Planned>)
    requires forall p <- ps :: p.id !in missions
    requires forall i, j :: 0 <= i < j < |ps| ==> ps[i].id != ps[j].id
    ensures var all := Inserted(missions, ps);
      && (forall m <- missions :: m in all && all[m] == missions[m])
      && (forall p <- ps :: p.id in all && all[p.id] == StoredMission(p.row))
      && (forall m <- all :: m in missions || exists p <- ps :: p.id == m)
  {
    if ps == [] {
    } else {
      InsertedRows(missions, ps[..|ps| - 1]);
      var last := |ps| - 1;
      forall m | m in Inserted(missions, ps) ensures m in missions || exists p <- ps :: p.id == m {
        if m != ps[last].id && m !in missions {
          var p :| p in ps[..last] && p.id == m;
          assert p in ps;
        }
      }
    }
  }

  lemma OrderStaysFree(db: Db, ps: seq<Planned>, k: nat)
    requires AllFresh(db, ps) && k < |ps|
    ensures MissionsFor(Inserted(db.missions, ps[..k]), ps[k].row.orderId) == {}
    ensures ps[k].id !in Inserted(db.missions, ps[..k])
  {
    forall p | p in ps[..k] ensures p.id !in db.missions {
      assert p in ps && Insertable(db, p);
    }
    InsertedRows(db.missions, ps[..k]);
    assert Insertable(db, ps[k]);
    var all := Inserted(db.missions, ps[..k]);
    forall m | m in all ensures all[m].orderId != ps[k].row.orderId && m != ps[k].id {
      if m in db.missions {
        assert m !in MissionsFor(db.missions, ps[k].row.orderId);
      } else {
        var p :| p in ps[..k] && p.id == m;
      }
    }
  }

  /** Every one of a plan's missions is inserted as a new row. */
  lemma {:induction false} FreshMissionsAreInserted(db: Db, ps: seq<Planned>, k: nat)
    requires AllFresh(db, ps) && k <= |ps|
    ensures MissionsStorable(db, ps, k)
    ensures WithMissions(db, ps, k) == db.(missions := Inserted(db.missions, ps[..k]))
  {
    hide MissionReadable, MissionsFor, StoredMission, Sole;
    if k == 0 {
    } else {
      FreshMissionsAreInserted(db, ps, k - 1);
      assert ps[..k][..k - 1] == ps[..k - 1];
      OrderStaysFree(db, ps, k - 1);
      assert Insertable(db, ps[k - 1]);
      InsertsNext(WithMissions(db, ps, k - 1), ps[k - 1]);
    }
  }

  lemma InsertsNext(db: Db, p: Planned)
    requires Insertable(db, p)
    ensures MissionStorable(db, p) && WithMission(db, p) == db.(missions := db.missions[p.id := StoredMission(p.row)])
  {
  }

  function Ids(ps: seq<Planned>): set<Id> {
    set p | p in ps :: p.id
  }

  lemma {:induction false} CountIds(ps: seq<Planned>)
    requires forall i, j :: 0 <= i < j < |ps| ==> ps[i].id != ps[j].id
    ensures |Ids(ps)| == |ps|
  {
    if ps == [] {
    } else {
      var init, last := ps[..|ps| - 1], ps[|ps| - 1];
      CountIds(init);
      IdsGrow(init, last);
      assert ps == init + [last];
      assert last.id !in Ids(init);
    }
  }

  lemma IdsGrow(ps: seq<Planned>, p: Planned)
    ensures Ids(ps + [p]) == Ids(ps) + {p.id}
  {
    forall x | x in Ids(ps) + {p.id} ensures x in Ids(ps + [p]) {
      if x in Ids(ps) {
        var q :| q in ps && q.id == x;
        assert q in ps + [p];
      } else {
        assert p in ps + [p];
      }
    }
  }

  // ---------------------------------------------------------------- the solver's contract

  predicate Visited(steps: seq<Step>, o: Id) {
    exists s <- steps :: s.Visit? && s.order == Some(o)
  }

  predicate KeptVisit(steps: seq<Step>, o: Id) {
    exists s <- steps :: Kept(s) && s.order == Some(o)
  }

  /** Each visit names its own order; visited and unassigned orders are disjoint and together the requested ones. */
  ghost predicate SolverContract(steps: seq<Step>, unassigned: set<Id>, requested: seq<Id>) {
    && (forall s <- steps :: s.Visit? ==> s.order.Some?)
    && DistinctVisits(steps)
    && (forall o :: Visited(steps, o) ==> o !in unassigned)
    && (forall o :: o in requested <==> Visited(steps, o) || o in unassigned)
  }

  predicate AllKept(steps: seq<Step>) {
    forall s <- steps :: s.Visit? ==> Kept(s)
  }

  /** Step `s` was mapped to mission `p`. */
  predicate Makes(s: Step, p: Planned) {
    Kept(s) && s.order == Some(p.row.orderId) && s.missionId == p.id
  }

  lemma {:induction false} MissionsComeFromVisits(steps: seq<Step>, routeId: Id, p: Planned) returns (i: nat)
    requires p in MapSteps(steps, routeId)
    ensures i < |steps| && Makes(steps[i], p)
  {
    var last := |steps| - 1;
    if p in MapSteps(steps[..last], routeId) {
      i := MissionsComeFromVisits(steps[..last], routeId, p);
    } else {
      i := last;
    }
  }

  lemma {:induction false} VisitsBecomeMissions(steps: seq<Step>, routeId: Id, i: nat) returns (p: Planned)
    requires i < |steps| && Kept(steps[i])
    ensures p in MapSteps(steps, routeId) && Makes(steps[i], p)
  {
    var last := |steps| - 1;
    if i < last {
      p := VisitsBecomeMissions(steps[..last], routeId, i);
    } else {
      p := MissionOf(steps[last], |VisitFlags(steps)|, routeId);
    }
  }

  /** No two steps visit one order or carry one mission id. */
  predicate DistinctVisits(steps: seq<Step>) {
    forall i, j :: 0 <= i < j < |steps| && steps[i].Visit? && steps[j].Visit? ==>
                     steps[i].order != steps[j].order && steps[i].missionId != steps[j].missionId
  }

  lemma {:induction false} DistinctMissions(steps: seq<Step>, routeId: Id, i: nat, j: nat)
    requires DistinctVisits(steps) && i < j < |MapSteps(steps, routeId)|
    ensures var ps := MapSteps(steps, routeId);
      ps[i].id != ps[j].id && ps[i].row.orderId != ps[j].row.orderId
  {
    var last := |steps| - 1;
    var before, ps := MapSteps(steps[..last], routeId), MapSteps(steps, routeId);
    if j < |before| {
      DistinctMissions(steps[..last], routeId, i, j);
    } else {
      var k := MissionsComeFromVisits(steps[..last], routeId, before[i]);
      assert Makes(steps[k], ps[i]) && Makes(steps[last], ps[j]);
    }
  }

  // ---------------------------------------------------------------- the partition

  /** A plan for a new route, over orders without missions, from a solver that keeps its contract. */
  ghost predicate FreshPlan(db: Db, plan: Plan, steps: seq<Step>) {
    && Linked(db) && plan.active.None? && plan.routeId !in db.routes && RouteReadable(plan.route)
    && plan.missions == MapSteps(steps, plan.routeId) && plan.route.numberOfMissions == |plan.missions|
    && (forall o <- plan.orders :: o in db.orders && MissionsFor(db.missions, o) == {})
    && SolverContract(steps, plan.unassigned, plan.orders)
    && (forall s <- steps :: s.Visit? ==> s.missionId !in db.missions)
  }

  lemma PlanIsInsertable(db: Db, plan: Plan, steps: seq<Step>, now: Instant)
    requires FreshPlan(db, plan, steps)
    ensures AllFresh(Prepared(db, plan, now), plan.missions)
  {
    var ps := plan.missions;
    PositionsFollowVisits(steps, plan.routeId);
    forall p | p in ps ensures Insertable(Prepared(db, plan, now), p) {
      var i := MissionsComeFromVisits(steps, plan.routeId, p);
      assert Visited(steps, p.row.orderId);
      assert Fresh(p.row, plan.routeId, |VisitFlags(steps)|);
    }
    forall i, j | 0 <= i < j < |ps| ensures ps[i].id != ps[j].id && ps[i].row.orderId != ps[j].row.orderId {
      DistinctMissions(steps, plan.routeId, i, j);
    }
  }

  /** A fresh plan persists completely; nothing but its own rows changes. */
  lemma FreshPlanPersists(db: Db, plan: Plan, steps: seq<Step>, now: Instant)
    requires FreshPlan(db, plan, steps)
    ensures Persists(db, plan, now)
    ensures AfterPersist(db, plan, now)
         == db.(routes := db.routes[plan.routeId := plan.route.(createdAt := now)],
                orders := WithStatuses(db.orders, plan, |plan.orders|),
                missions := Inserted(db.missions, plan.missions))
  {
    hide WithStatuses, AllFresh, WithMissions, MissionsStorable;
    PlanIsInsertable(db, plan, steps, now);
    FreshMissionsAreInserted(Prepared(db, plan, now), plan.missions, |plan.missions|);
    assert plan.missions[..|plan.missions|] == plan.missions;
    assert plan.active.None? && plan.routeId !in db.routes && RouteReadable(plan.route) by {
      assert FreshPlan(db, plan, steps);
    }
  }

  lemma NewRowsAreOnTheRoute(db: Db, plan: Plan, steps: seq<Step>)
    requires FreshPlan(db, plan, steps)
    ensures var ps, missions := plan.missions, Inserted(db.missions, plan.missions);
      && (forall i, j :: 0 <= i < j < |ps| ==> ps[i].id != ps[j].id)
      && (forall p <- ps :: p.id in missions && missions[p.id] == StoredMission(p.row) && p.row.routeId == plan.routeId)
      && (forall m <- missions :: missions[m].routeId == plan.routeId ==> exists p <- ps :: p.id == m)
  {
    hide WithStatuses;
    PlanIsInsertable(db, plan, steps, 0);
    forall p | p in plan.missions ensures p.id !in db.missions && p.row.routeId == plan.routeId {
      assert Insertable(Prepared(db, plan, 0), p);
      PlannedRoute(steps, plan.routeId, p);
    }
    InsertedRows(db.missions, plan.missions);
  }

  /** The stored missions of the new route are exactly those mapped from the steps, and as many as it announces. */
  lemma PlanIsStored(db: Db, plan: Plan, steps: seq<Step>)
    requires FreshPlan(db, plan, steps)
    ensures var missions := Inserted(db.missions, plan.missions);
      && Stored(missions, plan.routeId, steps)
      && |MissionsOf(missions, plan.routeId)| == plan.route.numberOfMissions
  {
    hide Linked, SolverContract, MapSteps, Inserted;
    NewRowsAreOnTheRoute(db, plan, steps);
    CountIds(plan.missions);
    assert MissionsOf(Inserted(db.missions, plan.missions), plan.routeId) == Ids(plan.missions);
  }

  /** An order got a mission on the new route. */
  predicate Routed(missions: map<Id, Mission>, routeId: Id, o: Id) {
    MissionOn(missions, o, routeId).One?
  }

  lemma RoutedWhenKept(db: Db, plan: Plan, steps: seq<Step>, o: Id)
    requires FreshPlan(db, plan, steps)
    ensures Routed(Inserted(db.missions, plan.missions), plan.routeId, o)
       <==> KeptVisit(steps, o)
  {
    var ps, missions := plan.missions, Inserted(db.missions, plan.missions);
    PlanIsStored(db, plan, steps);
    var rows := RowsOn(missions, o, plan.routeId);
    if KeptVisit(steps, o) {
      var s :| s in steps && Kept(s) && s.order == Some(o);
      var i :| 0 <= i < |steps| && steps[i] == s;
      var p := VisitsBecomeMissions(steps, plan.routeId, i);
      assert rows == {p.id} by {
        assert p.id in rows by { assert missions[p.id] == StoredMission(p.row); PlannedRoute(steps, plan.routeId, p); }
        forall m | m in rows ensures m == p.id {
          OneMissionEach(db, plan, steps, m, p);
        }
      }
      SoleIs(rows, p.id);
    }
    if Routed(missions, plan.routeId, o) {
      var m :| m in rows;
      var p :| p in ps && p.id == m;
      var i := MissionsComeFromVisits(steps, plan.routeId, p);
      assert Kept(steps[i]) && steps[i].order == Some(o);
    }
  }

  lemma PlannedRoute(steps: seq<Step>, routeId: Id, p: Planned)
    requires p in MapSteps(steps, routeId)
    ensures p.row.routeId == routeId
  {
    PositionsFollowVisits(steps, routeId);
    assert Fresh(p.row, routeId, |VisitFlags(steps)|);
  }

  lemma OneMissionEach(db: Db, plan: Plan, steps: seq<Step>, m: Id, p: Planned)
    requires FreshPlan(db, plan, steps) && p in plan.missions
    requires var missions := Inserted(db.missions, plan.missions);
      && Stored(missions, plan.routeId, steps)
      && m in missions && missions[m].routeId == plan.routeId && missions[m].orderId == p.row.orderId
    ensures m == p.id
  {
    hide Linked, MapSteps;
    var ps := plan.missions;
    var p' :| p' in ps && p'.id == m;
    var i :| 0 <= i < |ps| && ps[i] == p;
    var j :| 0 <= j < |ps| && ps[j] == p';
    if i < j {
      DistinctMissions(steps, plan.routeId, i, j);
    } else if j < i {
      DistinctMissions(steps, plan.routeId, j, i);
    }
  }

  /**
   Plan partition. Persisting a plan for a new route leaves every requested order SCHEDULED if it was visited
   and UNASSIGNED otherwise, and as many missions on the route as the route announces. An order is SCHEDULED
   exactly when one mission of the route refers to it -- for all requested orders exactly when no visit
   was dropped, since the order of a dropped visit is SCHEDULED without a mission.
   */
  lemma PlanPartitions(db: Db, plan: Plan, steps: seq<Step>, now: Instant)
    requires FreshPlan(db, plan, steps)
    ensures Persists(db, plan, now)
    ensures var db' := AfterPersist(db, plan, now);
      && Stored(db'.missions, plan.routeId, steps)
      && (forall o <- plan.orders :: o in db'.orders
            && db'.orders[o].status == if Visited(steps, o) then OrderStatus.Scheduled else OrderStatus.Unassigned)
      && ((forall o <- plan.orders :: o in db'.orders
            && (db'.orders[o].status == OrderStatus.Scheduled <==> Routed(db'.missions, plan.routeId, o)))
          <==> AllKept(steps))
      && plan.routeId in db'.routes
      && db'.routes[plan.routeId].numberOfMissions == |MissionsOf(db'.missions, plan.routeId)|
  {
    hide FreshPlan, Inserted, WithStatuses, Routed, Kept, KeptVisit, Visited, AllKept, SolverContract, Persists,
      AfterPersist, Stored, MissionsOf;
    FreshPlanPersists(db, plan, steps, now);
    PlanIsStored(db, plan, steps);
    StatusesFollowVisits(db, plan, steps);
    var missions := Inserted(db.missions, plan.missions);
    forall o: Id ensures Routed(missions, plan.routeId, o) <==> KeptVisit(steps, o) {
      RoutedWhenKept(db, plan, steps, o);
    }
    KeptOrDropped(steps, plan.unassigned, plan.orders);
  }

  lemma StatusesFollowVisits(db: Db, plan: Plan, steps: seq<Step>)
    requires FreshPlan(db, plan, steps)
    ensures var orders := WithStatuses(db.orders, plan, |plan.orders|);
      forall o <- plan.orders :: o in orders
        && orders[o].status == if Visited(steps, o) then OrderStatus.Scheduled else OrderStatus.Unassigned
    ensures SolverContract(steps, plan.unassigned, plan.orders)
  {
    assert plan.orders[..|plan.orders|] == plan.orders;
  }

  /** Every visited order has a kept visit exactly when every visit was kept. */
  lemma KeptOrDropped(steps: seq<Step>, unassigned: set<Id>, requested: seq<Id>)
    requires SolverContract(steps, unassigned, requested)
    ensures (forall o <- requested :: Visited(steps, o) <==> KeptVisit(steps, o))
       <==> AllKept(steps)
  {
    if forall o <- requested :: Visited(steps, o) <==> KeptVisit(steps, o) {
      forall s | s in steps && s.Visit? ensures Kept(s) {
        assert Visited(steps, s.order.value);
        var s' :| s' in steps && Kept(s') && s'.order == s.order;
        var i :| 0 <= i < |steps| && steps[i] == s;
        var j :| 0 <= j < |steps| && steps[j] == s';
      }
    }
  }

  /** A generation on a terminal without a scheduled route decides on such a plan. */
  lemma DecidedPlanIsFresh(db: Db, dir: Directory, g: Generation)
    requires Linked(db) && FetchedRows(db.orders, g.requested, g.fetched)
    requires g.metadata.routeId !in db.routes
    requires forall o <- g.fetched :: MissionsFor(db.missions, o) == {}
    requires Decide(db, dir, g).Persist? && Decide(db, dir, g).plan.active.None?
    requires g.response.Some? && g.response.value.routes != []
    requires var steps := g.response.value.routes[0].steps;
      && SolverContract(steps, (set o | o in g.response.value.unassigned), g.fetched)
      && forall s <- steps :: s.Visit? ==> s.missionId !in db.missions
    ensures FreshPlan(db, Decide(db, dir, g).plan, g.response.value.routes[0].steps)
  {
    hide CheckLive, SolverContract;
  }

  // ---------------------------------------------------------------- joining a scheduled route

  predicate SameRows(missions: map<Id, Mission>, missions': map<Id, Mission>) {
    && missions'.Keys == missions.Keys
    && forall m <- missions :: missions'[m].orderId == missions[m].orderId
                               && (MissionReadable(missions'[m]) <==> MissionReadable(missions[m]))
  }

  lemma SameExisting(missions: map<Id, Mission>, missions': map<Id, Mission>, o: Id)
    requires SameRows(missions, missions')
    ensures ExistingMission(missions', o) == ExistingMission(missions, o)
  {
    assert MissionsFor(missions', o) == MissionsFor(missions, o);
  }

  /** On tables without the plan's own route id a mission can only be merged into an earlier one. */
  lemma MergesOnly(db: Db, p: Planned)
    requires p.row.routeId !in db.routes && MissionReadable(p.row)
    ensures MissionStorable(db, p) <==> ExistingMission(db.missions, p.row.orderId).Some?
    ensures WithMission(db, p).routes == db.routes && SameRows(db.missions, WithMission(db, p).missions)
  {
  }

  lemma {:induction false} AllMerge(db: Db, ps: seq<Planned>, k: nat)
    requires k <= |ps| && forall p <- ps :: p.row.routeId !in db.routes && MissionReadable(p.row)
    ensures MissionsStorable(db, ps, k)
       <==> forall p <- ps[..k] :: ExistingMission(db.missions, p.row.orderId).Some?
    ensures WithMissions(db, ps, k).routes == db.routes && SameRows(db.missions, WithMissions(db, ps, k).missions)
  {
    hide MissionStorable, WithMission, ExistingMission, MissionReadable;
    if k == 0 {
    } else {
      AllMerge(db, ps, k - 1);
      var mid := WithMissions(db, ps, k - 1);
      SameExisting(db.missions, mid.missions, ps[k - 1].row.orderId);
      assert ps[k - 1] in ps;
      MergesOnly(mid, ps[k - 1]);
      assert ps[..k] == ps[..k - 1] + [ps[k - 1]];
    }
  }

  /**
   Joining a scheduled route: the planned missions carry the solver's freshly drawn route id, under which no
   route is stored, so the plan persists exactly when each of its orders already has a mission. Otherwise it
   fails at the first order that has none, after the route and all order statuses were committed.
   */
  lemma JoiningNeedsEarlierMissions(db: Db, plan: Plan, steps: seq<Step>, now: Instant)
    requires plan.active.Some? && plan.routeId !in db.routes && plan.missions == MapSteps(steps, plan.routeId)
    ensures Persists(db, plan, now)
       <==> RouteStorable(db, plan)
            && forall p <- plan.missions :: ExistingMission(db.missions, p.row.orderId).Some?
  {
    hide ExistingMission, RouteReadable;
    var base := Prepared(db, plan, now);
    PositionsFollowVisits(steps, plan.routeId);
    forall p | p in plan.missions ensures p.row.routeId !in base.routes && MissionReadable(p.row) {
      assert Fresh(p.row, plan.routeId, |VisitFlags(steps)|);
    }
    AllMerge(base, plan.missions, |plan.missions|);
    assert plan.missions[..|plan.missions|] == plan.missions;
  }
}
