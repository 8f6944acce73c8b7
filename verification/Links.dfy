/** The links between the tables hold in every run: no mission loses its route or order, and no order has two. */
module Links {
  import opened Base
  import opened Domain
  import opened Tables
  import opened Store
  import opened CourierSpec
  import opened CourierFrame
  import opened SolverOutput
  import opened Planning
  import opened OrderCalls
  import opened Lifecycle
  import opened Registered
  import opened Readable
  import opened Postponement

  /** Rows are only added, and the missions keep their links. */
  predicate KeepsLinks(db: Db, db': Db) {
    && db.routes.Keys <= db'.routes.Keys && db.orders.Keys <= db'.orders.Keys
    && db'.missions.Keys == db.missions.Keys
    && forall m <- db.missions :: db'.missions[m].routeId == db.missions[m].routeId
                                  && db'.missions[m].orderId == db.missions[m].orderId
  }

  lemma StaysLinked(db: Db, db': Db)
    requires Linked(db) && KeepsLinks(db, db')
    ensures Linked(db')
  {
  }

  lemma MissionStaysLinked(db: Db, p: Planned)
    requires Linked(db)
    ensures Linked(WithMission(db, p))
  {
    hide MissionReadable;
    var m := ExistingMission(db.missions, p.row.orderId);
    if m.Some? {
      StaysLinked(db, WithMission(db, p));
    } else if CanInsert(db, p.id, p.row) {
      forall x | x in db.missions ensures db.missions[x].orderId != p.row.orderId {
        assert x !in MissionsFor(db.missions, p.row.orderId);
      }
    }
  }

  lemma {:induction false} MissionsStayLinked(db: Db, ps: seq<Planned>, k: nat)
    requires Linked(db) && k <= |ps|
    ensures Linked(WithMissions(db, ps, k))
  {
    hide Linked, WithMission, MissionsStorable;
    if k == 0 {
    } else {
      MissionsStayLinked(db, ps, k - 1);
      MissionStaysLinked(WithMissions(db, ps, k - 1), ps[k - 1]);
    }
  }

  lemma PersistStaysLinked(db: Db, plan: Plan, now: Instant, k: nat)
    requires Linked(db) && k <= 1 + |plan.orders| + |plan.missions|
    ensures Linked(PersistState(db, plan, now, k))
  {
    hide Linked, PersistState, WithMissions, JoinedRoute, Restatus, RouteReadable;
    var i, j := StageForm(db, plan, now, k);
    StageRoutes(db, plan, now, k);
    var base := WithRoute(db, plan, now).(orders := WithStatuses(db.orders, plan, i));
    StaysLinked(db, base);
    if j > 0 {
      MissionsStayLinked(base, plan.missions, j);
    } else {
      StaysLinked(db, PersistState(db, plan, now, k));
    }
  }

  lemma GenerateStaysLinked(db: Db, dir: Directory, g: Generation, now: Instant, mid: Db)
    requires Linked(db) && DuringGenerate(db, dir, g, now, mid)
    ensures Linked(mid)
  {
    hide Decide, Linked, PersistState;
    var t := TimeOf(now);
    var db1 := AfterSweep(db, t);
    SweepIsStage(db, t);
    SweepStaysLinked(db, t, db1);
    if DuringSweep(db, t, mid) {
      SweepStaysLinked(db, t, mid);
    } else if Decide(db1, dir, g).Persist? {
      var plan := Decide(db1, dir, g).plan;
      var k: nat :| k <= 1 + |plan.orders| + |plan.missions| && mid == PersistState(db1, plan, now, k);
      PersistStaysLinked(db1, plan, now, k);
    } else {
      StaysLinked(db1, mid);
    }
  }

  lemma SweepStaysLinked(db: Db, t: Time, mid: Db)
    requires Linked(db) && DuringSweep(db, t, mid)
    ensures Linked(mid)
  {
    hide Linked;
    var rs, ms, os :| SweepProgress(db, t, rs, ms, os) && mid == SweepState(db, rs, ms, os);
    StaysLinked(db, mid);
  }

  lemma CancelStaysLinked(db: Db, rid: Id, mid: Db)
    requires Linked(db) && DuringCancel(db, rid, mid)
    ensures Linked(mid)
  {
    hide Linked, WithUnassigned, WithCancelled, WithCancelledRoutes;
    if mid != db {
      var ms, os :| CancelProgress(db, rid, ms, os) && mid == CancelState(db, rid, ms, os);
      CancelKeepsLinks(db, rid, ms, os);
      StaysLinked(db, mid);
    }
  }

  lemma CancelKeepsLinks(db: Db, rid: Id, ms: set<Id>, os: set<Id>)
    requires os <= db.missions.Keys
    ensures KeepsLinks(db, CancelState(db, rid, ms, os))
  {
  }

  lemma CourierStaysLinked(db: Db, dir: Directory, user: Id, rq: Request, now: Instant, mid: Db)
    requires Linked(db) && DuringCourier(db, dir, user, rq, now, mid)
    ensures Linked(mid)
  {
    hide DuringCourier, SameOrder, SameRoute;
    DuringCourierFrame(db, dir, user, rq, now, mid);
    StaysLinked(db, mid);
  }

  lemma ScanStaysLinked(db: Db, rid: Id, barcode: string, now: Instant)
    requires Linked(db)
    ensures Linked(Scan(db, rid, barcode, now).db)
  {
    hide MissionReadable, RouteReadable;
    StaysLinked(db, Scan(db, rid, barcode, now).db);
  }

  lemma OrderCallStaysLinked(db: Db, c: OrderCall)
    requires Linked(db) && CallFits(c) && NewIds(db.orders, c)
    ensures Linked(AfterOrderCall(db, c))
  {
    hide FitsColumns, HasWindow, Postponing;
    if c.Postpone? {
      if Postponing(db.orders, c.batch, |c.batch.ids|).Some? {
        PostponingWrites(db.orders, c.batch, |c.batch.ids|);
      }
      StaysLinked(db, AfterOrderCall(db, c));
    } else if c.Remove? && c.id in db.orders && db.orders[c.id].status.Registered? {
      RemovalStaysLinked(db, c.id);
    } else {
      StaysLinked(db, AfterOrderCall(db, c));
    }
  }

  lemma RemovalStaysLinked(db: Db, id: Id)
    requires Linked(db)
    ensures Linked(db.(orders := db.orders - {id}, missions := db.missions - MissionsFor(db.missions, id)))
  {
    forall m | m in db.missions && m !in MissionsFor(db.missions, id) ensures db.missions[m].orderId != id {
    }
  }

  lemma StepStaysLinked(db: Db, dir: Directory, e: Event, next: Db)
    requires Linked(db) && Supplied(db, e) && Leads(db, dir, e, next)
    ensures Linked(next)
  {
    hide Linked, DuringGenerate, AfterGenerate, DuringCancel, AfterCancel, SetState, DuringCourier, Scan,
      AfterOrderCall;
    match e.op {
      case Generate(g) =>
        WholeGenerationIsAStage(db, dir, g, e.at);
        GenerateStaysLinked(db, dir, g, e.at, next);
      case GenerateInterrupted(g) => GenerateStaysLinked(db, dir, g, e.at, next);
      case Cancel(rid) =>
        WholeCancellationIsAStage(db, rid);
        CancelStaysLinked(db, rid, next);
      case CancelInterrupted(rid) => CancelStaysLinked(db, rid, next);
      case Courier(user, rq) =>
        WholeRequestIsAStage(db, dir, user, rq, e.at);
        CourierStaysLinked(db, dir, user, rq, e.at, next);
      case CourierInterrupted(user, rq) => CourierStaysLinked(db, dir, user, rq, e.at, next);
      case ScanParcel(rid, barcode) => ScanStaysLinked(db, rid, barcode, e.at);
      case OrderChange(c) => OrderCallStaysLinked(db, c);
    }
  }

  /** In every run, interrupted anywhere, each mission has its route and its order, and no order has two missions. */
  lemma {:induction false} LinksHold(dir: Directory, states: seq<Db>, events: seq<Event>, k: nat)
    requires Run(dir, states, events) && Linked(states[0]) && k <= |events|
    ensures Linked(states[k])
  {
    hide Linked, Supplied, Leads;
    if k == 0 {
    } else {
      LinksHold(dir, states, events, k - 1);
      RunStep(dir, states, events, k - 1);
      StepStaysLinked(states[k - 1], dir, events[k - 1], states[k]);
    }
  }
}
