/** The route service: planning, cancelling and sweeping, one commit at a time. */
module RouteService {
  import opened Base
  import opened Domain
  import opened Tables
  import opened Store
  import opened SolverOutput
  import opened Planning
  import Billing

  class RouteService {
    const store: Store
    const billing: Billing.BillingService

    constructor (store: Store, billing: Billing.BillingService)
      requires billing.store == store
      ensures this.store == store && this.billing == billing
    {
      this.store := store;
      this.billing := billing;
    }

    // -------------------------------------------------------------- sweeping

    /** Every state a sweep commits is a legal stage of it, so an interruption leaves one of those. */
    method HandleRoutesWithPassedShift(now: Instant)
      requires Linked(store.State())
      modifies store
      ensures store.State() == AfterSweep(old(store.State()), TimeOf(now))
      ensures old(store.history) <= store.history
      ensures OnlyStages(old(store.State()), TimeOf(now), store.history[|old(store.history)|..])
    {
      hide SweepState, OnlyStages, Swept, ReachedOn, Reached, AfterSweep, Linked;
      ghost var db, t, from := store.State(), TimeOf(now), |store.history|;
      var rest := Swept(store.routes, TimeOf(now));
      ghost var done: set<Id> := {};
      SweepNothing(db, t);
      SweepDone(db, t);
      assert store.history[from..] == [];
      while rest != {}
        invariant rest == Swept(db.routes, t) - done && done <= Swept(db.routes, t)
        invariant store.State() == SweepState(db, done, ReachedOn(db, t, done), ReachedOn(db, t, done))
        invariant old(store.history) <= store.history
        invariant OnlyStages(db, t, store.history[from..])
        decreases |rest|
      {
        var r :| r in rest;
        SweepRoute(db, t, from, done, r);
        done := done + {r};
        rest := rest - {r};
      }
      assert done == Swept(db.routes, t);
    }

    /** One route of a sweep: the missions it reaches, then the route itself. */
    method SweepRoute(ghost db: Db, ghost t: Time, ghost from: nat, ghost done: set<Id>, r: Id)
      requires Linked(db) && done <= Swept(db.routes, t) && r in Swept(db.routes, t) && r !in done
      requires store.State() == SweepState(db, done, ReachedOn(db, t, done), ReachedOn(db, t, done))
      requires from <= |store.history| && OnlyStages(db, t, store.history[from..])
      modifies store
      ensures store.State() == SweepState(db, done + {r}, ReachedOn(db, t, done + {r}), ReachedOn(db, t, done + {r}))
      ensures old(store.history) <= store.history && OnlyStages(db, t, store.history[from..])
    {
      hide OnlyStages, DuringSweep, PageOf;
      CancelOneRoute(db, t, done, r);
      PageStays(db, ReachedOn(db, t, done), r);
      PageIsReached(db, t, r);
      var route := store.routes[r].(status := RouteStatus.Cancelled);
      SweepPage(db, t, from, done, r, PageOf(store.missions, r));
      ghost var rows := ReachedOn(db, t, done + {r});
      OneMoreStage(db, t, store.history, from, SweepState(db, done + {r}, rows, rows));
      var _ := store.UpdateRoute(r, route);
    }

    /** The missions of one route in the order of their positions. */
    method SweepPage(ghost db: Db, ghost t: Time, ghost from: nat, ghost done: set<Id>, ghost r: Id, page: set<Id>)
      requires Linked(db) && done <= Swept(db.routes, t) && r in Swept(db.routes, t) && r !in done
      requires page == ReachedOn(db, t, {r})
      requires store.State() == SweepState(db, done, ReachedOn(db, t, done), ReachedOn(db, t, done))
      requires from <= |store.history| && OnlyStages(db, t, store.history[from..])
      modifies store
      ensures store.State() == SweepState(db, done, ReachedOn(db, t, done + {r}), ReachedOn(db, t, done + {r}))
      ensures old(store.history) <= store.history && OnlyStages(db, t, store.history[from..])
    {
      hide SweepState, OnlyStages, Swept, ReachedOn, Reached, Linked, RouteReadable, MissionReadable, PageOf;
      var rest := page;
      ghost var ms := ReachedOn(db, t, done);
      ReachedSplits(db, t, done, r);
      while rest != {}
        invariant rest <= page
        invariant ms == ReachedOn(db, t, done) + (page - rest)
        invariant store.State() == SweepState(db, done, ms, ms)
        invariant old(store.history) <= store.history && OnlyStages(db, t, store.history[from..])
        decreases |rest|
      {
        SweepKeys(db, done, ms);
        FirstExists(store.missions, rest);
        var m :| m in rest && forall m' <- rest :: m' != m ==> Before(store.missions, m, m');
        SweepMission(db, t, from, done, ms, m);
        ms := ms + {m};
        rest := rest - {m};
      }
      assert ms == ReachedOn(db, t, done + {r});
    }

    /** One mission of a sweep: cancelled unless delivered, and its order released. */
    method SweepMission(ghost db: Db, ghost t: Time, ghost from: nat, ghost done: set<Id>, ghost ms: set<Id>, m: Id)
      requires Linked(db) && done <= Swept(db.routes, t) && ReachedOn(db, t, done) <= ms <= Reached(db, t)
      requires m in Reached(db, t) && m !in ms
      requires store.State() == SweepState(db, done, ms, ms)
      requires from <= |store.history| && OnlyStages(db, t, store.history[from..])
      modifies store
      ensures store.State() == SweepState(db, done, ms + {m}, ms + {m})
      ensures old(store.history) <= store.history && OnlyStages(db, t, store.history[from..])
    {
      hide SweepState, OnlyStages, DuringSweep, Reached, ReachedOn, Swept, MergeMission, MissionReadable;
      Stages(db, t, done, ms, m);
      CancelOneMission(db, done, ms, m);
      StatusWriteBack(db.missions[m], Known(MissionStatus.Cancelled));
      OneMoreStage(db, t, store.history, from, SweepState(db, done, ms + {m}, ms));
      var mission := MissionEntity(store.missions[m]);
      if mission.status != Some(Known(MissionStatus.Delivered)) {
        mission := mission.(status := Some(Known(MissionStatus.Cancelled)));
        var _ := store.UpdateMission(m, mission);
      }
      ReleaseOrder(db, t, from, done, ms, m, mission.orderId);
    }

    method ReleaseOrder(ghost db: Db, ghost t: Time, ghost from: nat, ghost done: set<Id>, ghost ms: set<Id>,
                        ghost m: Id, o: Id)
      requires ms <= db.missions.Keys && m in db.missions && db.missions[m].orderId == o && o in db.orders
      requires store.State() == SweepState(db, done, ms + {m}, ms)
      requires DuringSweep(db, t, SweepState(db, done, ms + {m}, ms + {m}))
      requires from <= |store.history| && OnlyStages(db, t, store.history[from..])
      modifies store
      ensures store.State() == SweepState(db, done, ms + {m}, ms + {m})
      ensures old(store.history) <= store.history && OnlyStages(db, t, store.history[from..])
    {
      hide SweepState, OnlyStages, DuringSweep, OverwriteOrder, HasWindow, OrderEntity, Restatus;
      ReleaseOneOrder(db, done, ms, m);
      RestatusIs(store.orders[o], OrderStatus.Unassigned);
      OneMoreStage(db, t, store.history, from, SweepState(db, done, ms + {m}, ms + {m}));
      store.UpdateOrder(o, OrderEntity(store.orders[o]).(status := OrderStatus.Unassigned));
    }

    // -------------------------------------------------------------- cancelling

    /** The route, then its missions, then their orders; every commit is a stage of the cancellation. */
    method CancelRoute(rid: Id) returns (ok: bool)
      requires Linked(store.State())
      modifies store
      ensures store.State() == AfterCancel(old(store.State()), rid)
      ensures ok == (rid in old(store.routes) && RouteReadable(old(store.routes)[rid]))
      ensures old(store.history) <= store.history
      ensures OnlyCancelStages(old(store.State()), rid, store.history[|old(store.history)|..])
    {
      hide CancelState, DuringCancel, PageOf;
      ghost var db, from := store.State(), |store.history|;
      var read := store.GetRoute(rid);
      if read.None? {
        return false;
      }
      CancelNothing(db, rid);
      PageRows(db.missions, rid);
      var page := PageOf(store.missions, rid);
      OneMoreCancelStage(db, rid, store.history, from, {}, {});
      ok := store.UpdateRoute(rid, read.value.(status := RouteStatus.Cancelled));
      CancelMissions(db, rid, from, page);
      ReleaseOrders(db, rid, from, page);
    }

    method CancelMissions(ghost db: Db, ghost rid: Id, ghost from: nat, page: set<Id>)
      requires rid in db.routes && RouteReadable(db.routes[rid])
      requires page == PageOf(db.missions, rid) <= db.missions.Keys
      requires store.State() == CancelState(db, rid, {}, {})
      requires from <= |store.history| && OnlyCancelStages(db, rid, store.history[from..])
      modifies store
      ensures store.State() == CancelState(db, rid, page, {})
      ensures old(store.history) <= store.history && OnlyCancelStages(db, rid, store.history[from..])
    {
      hide CancelState, MergeMission, MissionReadable, OnlyCancelStages, PageOf, RouteReadable;
      var rest := page;
      assert page - rest == {};
      while rest != {}
        invariant rest <= page
        invariant store.State() == CancelState(db, rid, page - rest, {})
        invariant old(store.history) <= store.history && OnlyCancelStages(db, rid, store.history[from..])
        decreases |rest|
      {
        var m :| m in rest;
        CancelOneOf(db, rid, page - rest, m);
        StatusWriteBack(db.missions[m], Known(MissionStatus.Cancelled));
        assert page - (rest - {m}) == page - rest + {m};
        OneMoreCancelStage(db, rid, store.history, from, page - rest + {m}, {});
        var _ := store.UpdateMission(
          m, MissionEntity(store.missions[m]).(status := Some(Known(MissionStatus.Cancelled))));
        rest := rest - {m};
      }
      assert page - {} == page;
    }

    method ReleaseOrders(ghost db: Db, ghost rid: Id, ghost from: nat, page: set<Id>)
      requires rid in db.routes && RouteReadable(db.routes[rid])
      requires page == PageOf(db.missions, rid) <= db.missions.Keys
      requires Linked(db) && store.State() == CancelState(db, rid, page, {})
      requires from <= |store.history| && OnlyCancelStages(db, rid, store.history[from..])
      modifies store
      ensures store.State() == CancelState(db, rid, page, page)
      ensures old(store.history) <= store.history && OnlyCancelStages(db, rid, store.history[from..])
    {
      hide CancelState, Restatus, OverwriteOrder, OrderEntity, HasWindow, OnlyCancelStages, PageOf, RouteReadable;
      var rest := page;
      assert page - rest == {};
      while rest != {}
        invariant rest <= page
        invariant store.State() == CancelState(db, rid, page, page - rest)
        invariant old(store.history) <= store.history && OnlyCancelStages(db, rid, store.history[from..])
        decreases |rest|
      {
        var m :| m in rest;
        ReleaseOneOf(db, rid, page, page - rest, m);
        var o := store.missions[m].orderId;
        RestatusIs(store.orders[o], OrderStatus.Unassigned);
        assert page - (rest - {m}) == page - rest + {m};
        OneMoreCancelStage(db, rid, store.history, from, page, page - rest + {m});
        store.UpdateOrder(o, OrderEntity(store.orders[o]).(status := OrderStatus.Unassigned));
        rest := rest - {m};
      }
      assert page - {} == page;
    }

    // -------------------------------------------------------------- the live-route check

    /** The scan of the terminal's recent routes, newest first. */
    method CheckCurrentRoutes(terminal: Id) returns (live: LiveCheck)
      ensures live == CheckLive(store.routes, terminal)
    {
      var rows := RecentRoutes(store.routes, terminal);
      var rest := rows;
      var active: Option<Id> := None;
      while rest != {}
        invariant rest <= rows <= store.routes.Keys
        invariant forall r <- rows, r' <- rows :: r !in rest && r' in rest ==> Newer(store.routes, r, r')
        invariant forall r <- rows :: r !in rest ==> !OnTheRoad(store.routes[r])
        invariant active.None? ==> forall r <- rows :: r !in rest ==> store.routes[r].status != RouteStatus.Scheduled
        invariant active.Some? ==> OldestScheduled(store.routes, rows - rest, active.value)
        decreases |rest|
      {
        NewestExists(store.routes, rest);
        var r :| r in rest && forall r' <- rest :: r' != r ==> Newer(store.routes, r, r');
        if OnTheRoad(store.routes[r]) {
          return Blocked;
        }
        if store.routes[r].status == RouteStatus.Scheduled {
          active := Some(r);
        }
        rest := rest - {r};
      }
      assert rows - rest == rows;
      live := if active.Some? then Join(active.value) else NoneLive;
    }

    // -------------------------------------------------------------- planning

    /**
     Every commit is a stage of the plan: the route, then each order's status, then each mission. The first
     write that fails ends the plan where it is.
     */
    method PersistPlan(plan: Plan, now: Instant) returns (ok: bool)
      requires forall o <- plan.orders :: o in store.orders
      requires forall i, j :: 0 <= i < j < |plan.orders| ==> plan.orders[i] != plan.orders[j]
      modifies store
      ensures store.State() == AfterPersist(old(store.State()), plan, now)
      ensures ok == Persists(old(store.State()), plan, now)
      ensures old(store.history) <= store.history
      ensures OnlyPersistStages(old(store.State()), plan, now, store.history[|old(store.history)|..])
    {
      ghost var db, from := store.State(), |store.history|;
      ok := PersistRoute(plan, now);
      assert DuringPersist(db, plan, now, store.State());
      if ok {
        PersistStatuses(db, from, plan, now);
        ok := PersistMissions(db, from, plan, now);
      } else {
        FailedRouteEndsPlan(db, plan, now);
      }
    }

    method PersistStatuses(ghost db: Db, ghost from: nat, plan: Plan, ghost now: Instant)
      requires forall o <- plan.orders :: o in db.orders
      requires forall i, j :: 0 <= i < j < |plan.orders| ==> plan.orders[i] != plan.orders[j]
      requires RouteStorable(db, plan) && store.State() == PersistState(db, plan, now, 1)
      requires from <= |store.history| && OnlyPersistStages(db, plan, now, store.history[from..])
      modifies store
      ensures store.State() == PersistState(db, plan, now, 1 + |plan.orders|)
      ensures old(store.history) <= store.history && OnlyPersistStages(db, plan, now, store.history[from..])
    {
      hide PersistState, OnlyPersistStages, RouteStorable, Restatus, OverwriteOrder, OrderEntity, HasWindow;
      for i := 0 to |plan.orders|
        invariant store.State() == PersistState(db, plan, now, 1 + i)
        invariant old(store.history) <= store.history && OnlyPersistStages(db, plan, now, store.history[from..])
      {
        var o := plan.orders[i];
        StatusStep(db, plan, now, i);
        RestatusIs(store.orders[o], PlannedStatus(plan, o));
        OneMorePersistStage(db, plan, now, store.history, from, 2 + i);
        store.UpdateOrder(o, OrderEntity(store.orders[o]).(status :=
          if o in plan.unassigned then OrderStatus.Unassigned else OrderStatus.Scheduled));
      }
    }

    method PersistMissions(ghost db: Db, ghost from: nat, plan: Plan, ghost now: Instant) returns (ok: bool)
      requires RouteStorable(db, plan) && store.State() == PersistState(db, plan, now, 1 + |plan.orders|)
      requires from <= |store.history| && OnlyPersistStages(db, plan, now, store.history[from..])
      modifies store
      ensures store.State() == AfterPersist(db, plan, now) && ok == Persists(db, plan, now)
      ensures old(store.history) <= store.history && OnlyPersistStages(db, plan, now, store.history[from..])
    {
      hide OnlyPersistStages, PersistState, AfterPersist, Persists, RouteStorable, Prepared, WithMissions,
        MissionsStorable;
      ghost var base := Prepared(db, plan, now);
      MissionStage(db, plan, now, 0);
      MissionStage(db, plan, now, |plan.missions|);
      NothingStoredYet(base, plan.missions);
      for j := 0 to |plan.missions|
        invariant store.State() == WithMissions(base, plan.missions, j) && MissionsStorable(base, plan.missions, j)
        invariant old(store.history) <= store.history && OnlyPersistStages(db, plan, now, store.history[from..])
      {
        ok := PersistNext(db, from, plan, now, j);
        if !ok {
          FailureEndsPlan(base, plan.missions, j + 1, |plan.missions|);
          return;
        }
      }
      ok := true;
    }

    method PersistNext(ghost db: Db, ghost from: nat, plan: Plan, ghost now: Instant, j: nat) returns (ok: bool)
      requires RouteStorable(db, plan) && j < |plan.missions|
      requires store.State() == WithMissions(Prepared(db, plan, now), plan.missions, j)
      requires MissionsStorable(Prepared(db, plan, now), plan.missions, j)
      requires from <= |store.history| && OnlyPersistStages(db, plan, now, store.history[from..])
      modifies store
      ensures store.State() == WithMissions(Prepared(db, plan, now), plan.missions, j + 1)
      ensures ok == MissionsStorable(Prepared(db, plan, now), plan.missions, j + 1)
      ensures old(store.history) <= store.history && OnlyPersistStages(db, plan, now, store.history[from..])
    {
      hide OnlyPersistStages, PersistState, AfterPersist, Persists, RouteStorable, Prepared, WithMission,
        MissionStorable;
      MissionStage(db, plan, now, j + 1);
      OneMorePersistStage(db, plan, now, store.history, from, 2 + |plan.orders| + j);
      ok := PersistMission(plan.missions[j]);
    }

    method PersistMission(p: Planned) returns (ok: bool)
      modifies store
      ensures store.State() == WithMission(old(store.State()), p)
      ensures ok == MissionStorable(old(store.State()), p)
      ensures store.history == old(store.history) || store.history == old(store.history) + [store.State()]
    {
      var existing := ExistingMission(store.missions, p.row.orderId);
      if existing.None? {
        ok := store.CreateMission(p.id, p.row);
      } else {
        ok := store.UpdateMission(existing.value, p.row);
      }
    }

    method PersistRoute(plan: Plan, now: Instant) returns (ok: bool)
      modifies store
      ensures store.State() == PersistState(old(store.State()), plan, now, 1)
      ensures ok == RouteStorable(old(store.State()), plan)
      ensures old(store.history) <= store.history
      ensures forall mid <- store.history[|old(store.history)|..] :: mid == store.State()
    {
      if plan.active.Some? {
        if plan.active.value !in store.routes {
          return false;
        }
        ok := store.UpdateRoute(plan.active.value, plan.route);
      } else {
        ok := store.CreateRoute(plan.routeId, plan.route.(createdAt := now));
      }
    }

    /** One generation request, from the sweep to the last write. */
    method GenerateRoute(g: Generation, now: Instant) returns (route: Option<Id>)
      requires Linked(store.State()) && FetchedRows(store.orders, g.requested, g.fetched)
      requires billing.store == store
      modifies store
      ensures store.State() == AfterGenerate(old(store.State()), store.directory, g, now)
      ensures old(store.history) <= store.history
      ensures OnlyGenerateStages(old(store.State()), store.directory, g, now, store.history[|old(store.history)|..])
      ensures var db1 := AfterSweep(old(store.State()), TimeOf(now));
              var d := Decide(db1, store.directory, g);
        route == if d.Persist? && Persists(db1, d.plan, now) then Some(StoredRoute(d.plan)) else None
    {
      HandleRoutesWithPassedShift(now);
      ghost var db1 := store.State();
      route := None;
      var admitted := billing.CanGenerateRoute(g.user, |g.requested|);
      if !admitted {
        return;
      }
      var live := CheckCurrentRoutes(g.metadata.terminal);
      if live.Blocked? || g.fetched == [] || !g.entitiesFound {
        return;
      }
      for i := 0 to |g.fetched|
        invariant forall o <- g.fetched[..i] ::
                    o in store.orders
                    && Plannable(store.orders[o], g.metadata.courier, g.metadata.terminal, g.metadata.shift)
      {
        if !Plannable(store.orders[g.fetched[i]], g.metadata.courier, g.metadata.terminal, g.metadata.shift) {
          return;
        }
      }
      assert g.fetched[..|g.fetched|] == g.fetched;
      if g.response.None? {
        return;
      }
      var missions := [];
      if g.response.value.routes != [] {
        missions := MapVisitSteps(g.response.value.routes[0].steps, g.metadata.routeId);
      }
      if missions == [] {
        MarkUnassigned(g.fetched);
        return;
      }
      var planned := RouteOf(g.response.value.routes[0], g.metadata, |missions|);
      if planned.None? {
        return;
      }
      var plan := Plan(g.metadata.routeId, planned.value, missions, g.fetched,
                       set o | o in g.response.value.unassigned, if live.Join? then Some(live.route) else None);
      var ok := PersistPlan(plan, now);
      if ok {
        route := Some(StoredRoute(plan));
      }
    }

    method MarkUnassigned(fetched: seq<Id>)
      requires forall o <- fetched :: o in store.orders
      requires forall i, j :: 0 <= i < j < |fetched| ==> fetched[i] != fetched[j]
      modifies store
      ensures store.State() == AllUnassigned(old(store.State()), fetched)
      ensures old(store.history) <= store.history
      ensures OnlyReleaseStages(old(store.State()), fetched, store.history[|old(store.history)|..])
    {
      hide Restatus, OverwriteOrder, OrderEntity, HasWindow;
      ghost var db, from := store.State(), |store.history|;
      NothingReleased(db, fetched);
      for i := 0 to |fetched|
        invariant store.State() == AllUnassigned(db, fetched[..i])
        invariant old(store.history) <= store.history && OnlyReleaseStages(db, fetched, store.history[from..])
      {
        var o := fetched[i];
        ReleaseNext(db, fetched, i);
        RestatusIs(store.orders[o], OrderStatus.Unassigned);
        OneMoreReleaseStage(db, fetched, store.history, from, i + 1);
        store.UpdateOrder(o, OrderEntity(store.orders[o]).(status := OrderStatus.Unassigned));
      }
      assert fetched[..|fetched|] == fetched;
    }
  }

  lemma NothingReleased(db: Db, fetched: seq<Id>)
    ensures AllUnassigned(db, fetched[..0]) == db
  {
    assert (set o | o in fetched[..0]) == {};
    assert WithUnassigned(db.orders, {}) == db.orders;
  }

  lemma ReleaseNext(db: Db, fetched: seq<Id>, i: nat)
    requires i < |fetched| && fetched[i] in db.orders
    requires forall i, j :: 0 <= i < j < |fetched| ==> fetched[i] != fetched[j]
    ensures var mid := AllUnassigned(db, fetched[..i]);
      && fetched[i] in mid.orders
      && mid.(orders := mid.orders[fetched[i] := Restatus(mid.orders[fetched[i]], OrderStatus.Unassigned)])
         == AllUnassigned(db, fetched[..i + 1])
  {
    hide Restatus;
    assert fetched[..i + 1] == fetched[..i] + [fetched[i]];
  }

  lemma OneMoreReleaseStage(db: Db, fetched: seq<Id>, history: seq<Db>, from: nat, k: nat)
    requires from <= |history| && OnlyReleaseStages(db, fetched, history[from..]) && k <= |fetched|
    ensures OnlyReleaseStages(db, fetched, (history + [AllUnassigned(db, fetched[..k])])[from..])
  {
    hide AllUnassigned;
    var mid := AllUnassigned(db, fetched[..k]);
    assert DuringRelease(db, fetched, mid);
    assert (history + [mid])[from..] == history[from..] + [mid];
  }

  lemma RestatusIs(row: Order, status: OrderStatus)
    ensures Restatus(row, status) == OverwriteOrder(row, OrderEntity(row).(status := status))
  {
  }

  lemma OneMoreStage(db: Db, t: Time, history: seq<Db>, from: nat, mid: Db)
    requires from <= |history| && OnlyStages(db, t, history[from..]) && DuringSweep(db, t, mid)
    ensures OnlyStages(db, t, (history + [mid])[from..])
  {
    hide DuringSweep;
    assert (history + [mid])[from..] == history[from..] + [mid];
  }

  /** Both commits for a mission are legal stages of the sweep. */
  lemma Stages(db: Db, t: Time, rs: set<Id>, ms: set<Id>, m: Id)
    requires rs <= Swept(db.routes, t) && ReachedOn(db, t, rs) <= ms <= Reached(db, t) && m in Reached(db, t)
    ensures DuringSweep(db, t, SweepState(db, rs, ms + {m}, ms))
    ensures DuringSweep(db, t, SweepState(db, rs, ms + {m}, ms + {m}))
  {
    assert SweepProgress(db, t, rs, ms + {m}, ms);
    assert SweepProgress(db, t, rs, ms + {m}, ms + {m});
  }

  lemma ReachedSplits(db: Db, t: Time, rs: set<Id>, r: Id)
    requires r !in rs
    ensures ReachedOn(db, t, rs + {r}) == ReachedOn(db, t, rs) + ReachedOn(db, t, {r})
    ensures ReachedOn(db, t, rs) !! ReachedOn(db, t, {r})
    ensures ReachedOn(db, t, rs + {r}) <= Reached(db, t) <= db.missions.Keys
  {
  }

  lemma SweepKeys(db: Db, rs: set<Id>, ms: set<Id>)
    requires ms <= db.missions.Keys
    ensures SweepState(db, rs, ms, ms).missions.Keys == db.missions.Keys
  {
  }

  lemma PageIsReached(db: Db, t: Time, r: Id)
    requires r in Swept(db.routes, t)
    ensures ReachedOn(db, t, {r}) == PageOf(db.missions, r)
  {
    assert PageOf(db.missions, r) <= FirstPage(db.missions, r);
  }

  lemma CancelOneMission(db: Db, rs: set<Id>, ms: set<Id>, m: Id)
    requires ms <= db.missions.Keys && m in db.missions && m !in ms
    ensures var mid := SweepState(db, rs, ms, ms);
      && m in mid.missions && mid.missions[m] == db.missions[m]
      && (if IsDelivered(db.missions[m]) then mid
          else mid.(missions := mid.missions[m := db.missions[m].(status := Some(Known(MissionStatus.Cancelled)))]))
         == SweepState(db, rs, ms + {m}, ms)
  {
    if IsDelivered(db.missions[m]) {
      assert NotDelivered(db.missions, ms + {m}) == NotDelivered(db.missions, ms);
    } else {
      assert NotDelivered(db.missions, ms + {m}) == NotDelivered(db.missions, ms) + {m};
    }
  }

  lemma ReleaseOneOrder(db: Db, rs: set<Id>, ms: set<Id>, m: Id)
    requires ms <= db.missions.Keys && m in db.missions && db.missions[m].orderId in db.orders
    ensures var mid := SweepState(db, rs, ms + {m}, ms);
            var o := db.missions[m].orderId;
      o in mid.orders
      && mid.(orders := mid.orders[o := Restatus(mid.orders[o], OrderStatus.Unassigned)])
      == SweepState(db, rs, ms + {m}, ms + {m})
  {
    assert OrdersOf(db.missions, ms + {m}) == OrdersOf(db.missions, ms) + {db.missions[m].orderId};
  }

  lemma CancelOneRoute(db: Db, t: Time, rs: set<Id>, r: Id)
    requires r in Swept(db.routes, t) && rs <= Swept(db.routes, t)
    ensures var ms := ReachedOn(db, t, rs + {r});
            var mid := SweepState(db, rs, ms, ms);
      && r in mid.routes
      && mid.(routes := mid.routes[r := mid.routes[r].(status := RouteStatus.Cancelled)])
         == SweepState(db, rs + {r}, ms, ms)
      && DuringSweep(db, t, SweepState(db, rs + {r}, ms, ms))
  {
    assert SweepProgress(db, t, rs + {r}, ReachedOn(db, t, rs + {r}), ReachedOn(db, t, rs + {r}));
  }

  lemma SweepNothing(db: Db, t: Time)
    ensures ReachedOn(db, t, {}) == {}
    ensures SweepState(db, {}, {}, {}) == db
    ensures OnlyStages(db, t, [])
  {
    assert WithCancelledRoutes(db.routes, {}) == db.routes;
    assert WithCancelled(db.missions, NotDelivered(db.missions, {})) == db.missions;
    assert WithUnassigned(db.orders, OrdersOf(db.missions, {})) == db.orders;
  }

  lemma SweepDone(db: Db, t: Time)
    ensures var all, rows := Swept(db.routes, t), ReachedOn(db, t, Swept(db.routes, t));
      rows <= db.missions.Keys && AfterSweep(db, t) == SweepState(db, all, rows, rows)
  {
    assert ReachedOn(db, t, Swept(db.routes, t)) == Reached(db, t);
  }

  /** What a sweep has done so far does not change which missions it finds for the next route. */
  lemma PageStays(db: Db, ms: set<Id>, r: Id)
    requires ms <= db.missions.Keys
    ensures PageOf(WithCancelled(db.missions, NotDelivered(db.missions, ms)), r) == PageOf(db.missions, r)
  {
    SamePage(db.missions, WithCancelled(db.missions, NotDelivered(db.missions, ms)), r);
  }

  /** A nonempty set of rows has a first one by position. */
  lemma FirstExists(missions: map<Id, Mission>, rows: set<Id>)
    requires rows != {} && rows <= missions.Keys
    ensures exists m <- rows :: forall m' <- rows :: m' != m ==> Before(missions, m, m')
  {
    var m :| m in rows;
    if rows == {m} {
    } else {
      var others := rows - {m};
      FirstExists(missions, others);
      var first :| first in others && forall m' <- others :: m' != first ==> Before(missions, first, m');
      if Before(missions, m, first) {
        forall m' | m' in rows && m' != m ensures Before(missions, m, m') {
          if m' != first { assert Before(missions, first, m'); }
        }
      } else {
        forall m' | m' in rows && m' != first ensures Before(missions, first, m') {
          if m' != m { assert m' in others; }
        }
      }
    }
  }

  lemma MissionStage(db: Db, plan: Plan, now: Instant, j: nat)
    requires RouteStorable(db, plan) && j <= |plan.missions|
    ensures PersistState(db, plan, now, 1 + |plan.orders| + j)
         == WithMissions(Prepared(db, plan, now), plan.missions, j)
    ensures AfterPersist(db, plan, now) == WithMissions(Prepared(db, plan, now), plan.missions, |plan.missions|)
    ensures Persists(db, plan, now) == MissionsStorable(Prepared(db, plan, now), plan.missions, |plan.missions|)
  {
  }

  lemma NothingStoredYet(db: Db, ps: seq<Planned>)
    ensures WithMissions(db, ps, 0) == db && MissionsStorable(db, ps, 0)
  {
  }

  lemma FailedRouteEndsPlan(db: Db, plan: Plan, now: Instant)
    requires !RouteStorable(db, plan)
    ensures AfterPersist(db, plan, now) == PersistState(db, plan, now, 1) && !Persists(db, plan, now)
  {
  }

  lemma StatusStep(db: Db, plan: Plan, now: Instant, i: nat)
    requires RouteStorable(db, plan) && i < |plan.orders| && plan.orders[i] in db.orders
    requires forall i, j :: 0 <= i < j < |plan.orders| ==> plan.orders[i] != plan.orders[j]
    ensures var mid := PersistState(db, plan, now, 1 + i);
            var o := plan.orders[i];
      && o in mid.orders
      && mid.(orders := mid.orders[o := Restatus(mid.orders[o], PlannedStatus(plan, o))])
         == PersistState(db, plan, now, 2 + i)
  {
    var o := plan.orders[i];
    assert plan.orders[..i + 1] == plan.orders[..i] + [o];
    assert o !in plan.orders[..i];
    assert WithStatuses(db.orders, plan, i)[o := Restatus(db.orders[o], PlannedStatus(plan, o))]
        == WithStatuses(db.orders, plan, i + 1);
  }

  lemma OneMorePersistStage(db: Db, plan: Plan, now: Instant, history: seq<Db>, from: nat, k: nat)
    requires from <= |history| && OnlyPersistStages(db, plan, now, history[from..])
    requires k <= 1 + |plan.orders| + |plan.missions|
    ensures OnlyPersistStages(db, plan, now, (history + [PersistState(db, plan, now, k)])[from..])
  {
    hide PersistState;
    var mid := PersistState(db, plan, now, k);
    assert DuringPersist(db, plan, now, mid);
    assert (history + [mid])[from..] == history[from..] + [mid];
  }

  /** Nothing is written after the first mission that cannot be stored. */
  lemma {:induction false} FailureEndsPlan(db: Db, ps: seq<Planned>, j: nat, k: nat)
    requires 0 < j <= k <= |ps| && !MissionsStorable(db, ps, j)
    ensures WithMissions(db, ps, k) == WithMissions(db, ps, j) && !MissionsStorable(db, ps, k)
  {
    if j == k {
    } else {
      FailureEndsPlan(db, ps, j, k - 1);
    }
  }

  lemma PageRows(missions: map<Id, Mission>, rid: Id)
    ensures PageOf(missions, rid) <= missions.Keys
  {
    assert PageOf(missions, rid) <= FirstPage(missions, rid);
  }

  lemma OneMoreCancelStage(db: Db, rid: Id, history: seq<Db>, from: nat, ms: set<Id>, os: set<Id>)
    requires from <= |history| && OnlyCancelStages(db, rid, history[from..])
    requires rid in db.routes && RouteReadable(db.routes[rid])
    requires CancelProgress(db, rid, ms, os) && os <= db.missions.Keys
    ensures OnlyCancelStages(db, rid, (history + [CancelState(db, rid, ms, os)])[from..])
  {
    hide PageOf, RouteReadable, CancelState;
    var mid := CancelState(db, rid, ms, os);
    assert DuringCancel(db, rid, mid);
    assert (history + [mid])[from..] == history[from..] + [mid];
  }

  lemma CancelNothing(db: Db, rid: Id)
    requires rid in db.routes
    ensures db.(routes := db.routes[rid := db.routes[rid].(status := RouteStatus.Cancelled)])
         == CancelState(db, rid, {}, {})
  {
    assert WithCancelled(db.missions, {}) == db.missions;
    assert OrdersOf(db.missions, {}) == {};
    assert WithUnassigned(db.orders, {}) == db.orders;
    assert WithCancelledRoutes(db.routes, {rid}) == db.routes[rid := db.routes[rid].(status := RouteStatus.Cancelled)];
  }

  lemma CancelOneOf(db: Db, rid: Id, ms: set<Id>, m: Id)
    requires m in db.missions && m !in ms
    ensures var mid := CancelState(db, rid, ms, {});
      && m in mid.missions && mid.missions[m] == db.missions[m]
      && mid.(missions := mid.missions[m := db.missions[m].(status := Some(Known(MissionStatus.Cancelled)))])
         == CancelState(db, rid, ms + {m}, {})
  {
  }

  lemma ReleaseOneOf(db: Db, rid: Id, ms: set<Id>, os: set<Id>, m: Id)
    requires os <= db.missions.Keys && m in db.missions && db.missions[m].orderId in db.orders
    ensures var mid := CancelState(db, rid, ms, os);
            var o := db.missions[m].orderId;
      && m in mid.missions && mid.missions[m].orderId == o && o in mid.orders
      && mid.(orders := mid.orders[o := Restatus(mid.orders[o], OrderStatus.Unassigned)])
         == CancelState(db, rid, ms, os + {m})
  {
    assert OrdersOf(db.missions, os + {m}) == OrdersOf(db.missions, os) + {db.missions[m].orderId};
  }

  lemma NewestExists(routes: map<Id, Route>, rows: set<Id>)
    requires rows != {} && rows <= routes.Keys
    ensures exists r <- rows :: forall r' <- rows :: r' != r ==> Newer(routes, r, r')
  {
    var r :| r in rows;
    if rows == {r} {
    } else {
      var others := rows - {r};
      NewestExists(routes, others);
      var first :| first in others && forall r' <- others :: r' != first ==> Newer(routes, first, r');
      if Newer(routes, r, first) {
        forall r' | r' in rows && r' != r ensures Newer(routes, r, r') {
          if r' != first { assert Newer(routes, first, r'); }
        }
      } else {
        forall r' | r' in rows && r' != first ensures Newer(routes, first, r') {
          if r' != r { assert r' in others; }
        }
      }
    }
  }
}
