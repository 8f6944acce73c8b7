/** A run from readable tables with one live route that ends with two, by way of a finish past midnight. */
module Overnight {
  import opened Base
  import opened Domain
  import opened Tables
  import opened CourierSpec
  import opened CourierFrame
  import opened SolverOutput
  import opened Planning
  import opened Lifecycle
  import opened Registered
  import opened Readable
  import opened LiveRoutes
  import Billing

  const YESTERDAY: Route := Route(0, 0, 0, 0, 1000, Some(200), Some(300), RouteStatus.Finished, None, 1,
                                  Some(0), Some(0), Some(0), None, None, 1)

  const TODAY: Route := Route(0, 0, 0, 0, 1000, Some(50), None, RouteStatus.Ongoing, None, 1,
                              Some(0), Some(0), None, None, None, 2)

  const WAITING_ORDER: Order := Order(0, 0, 0, "parcel", OrderStatus.Registered, None, None, None, None, None)

  const DIRECTORY: Directory := Directory(map[0 := 0], map[])

  /** One finished route and a newer live one at the same terminal, and an order to be planned. */
  const BEFORE: Db := Db(map[0 := YESTERDAY, 1 := TODAY], map[], map[0 := WAITING_ORDER],
                         map[0 := CourierState([], CourierStep.FinishRoute)], map[])

  const FINISH: Request := Request(CourierStep.FinishRoute, 0, None, None, None)

  const STEPS: seq<Step> := [Visit(Some(0), 0, 600, 0, 0, 0, 0, true)]

  const PLANNING: Generation :=
    Generation(0, [0], [0], Metadata(2, 0, 0, 0, 0, 1000), true, Some(Response([SolverRoute(STEPS, 0, 0)], [])))

  const FINISHED_AT: Instant := 86_400_000_100

  const PLANNED_AT: Instant := 86_400_000_500

  /** The finish is repeated on the next day, at an earlier time of day than the start. */
  ghost function Hidden(): Db {
    SetState(BEFORE, DIRECTORY, 0, FINISH, FINISHED_AT).db
  }

  lemma HiddenRows()
    ensures var db := Hidden();
      && db.routes.Keys == {0, 1} && db.routes[1] == TODAY
      && !RouteReadable(db.routes[0]) && db.routes[0].status == RouteStatus.Finished
      && db.routes[0].terminalId == 0 && db.routes[0].createdAt == 1 && db.routes[0].finish == 1000
      && db.missions == map[] && db.orders == BEFORE.orders && db.usage == map[]
  {
    hide TotalWaiting;
    assert TimeOf(FINISHED_AT) == 100;
  }

  lemma NothingExpired()
    ensures AfterSweep(Hidden(), TimeOf(PLANNED_AT)) == Hidden()
  {
    hide SetState;
    HiddenRows();
    var db := Hidden();
    assert TimeOf(PLANNED_AT) == 500;
    assert ExpiredRoutes(db.routes, 500) == {};
    assert Reached(db, 500) == {};
    assert db.routes == WithCancelledRoutes(db.routes, {});
    assert db.missions == WithCancelled(db.missions, {});
    assert db.orders == WithUnassigned(db.orders, {});
    assert OrdersOf(db.missions, {}) == {};
  }

  lemma HiddenIsNotVisible()
    ensures LiveIsNewest(Hidden().routes) && !Visible(Hidden().routes, 0)
    ensures CheckLive(Hidden().routes, 0) == NoneLive
  {
    hide SetState, RouteReadable;
    HiddenRows();
    var routes := Hidden().routes;
    assert NewerRoutes(routes, 0) <= {1};
    Smaller(NewerRoutes(routes, 0), {1});
    assert 0 in Recent(routes, 0);
    assert Live(routes[1]);
    RecentIs(routes, 0);
  }

  lemma DecidesOnANewRoute()
    ensures StoresNew(Hidden(), DIRECTORY, PLANNING)
  {
    hide SetState, CheckLive, RouteReadable;
    HiddenRows();
    HiddenIsNotVisible();
    MappedStep();
    RoutePlanned();
    assert Plannable(Hidden().orders[0], 0, 0, 0);
  }

  lemma MappedStep()
    ensures MapSteps(STEPS, 2) != [] && |MapSteps(STEPS, 2)| == 1
  {
    assert STEPS[..0] == [];
    assert Kept(STEPS[0]);
  }

  lemma RoutePlanned()
    ensures RouteOf(PLANNING.response.value.routes[0], PLANNING.metadata, 1).Some?
  {
  }

  lemma PlanningIsSupplied()
    ensures Supplied(Hidden(), Event(Generate(PLANNING), PLANNED_AT))
  {
    assert FetchedRows(Hidden().orders, PLANNING.requested, PLANNING.fetched);
    assert VisitsRequested(PLANNING);
  }

  /**
   From readable, linked tables with one live route at each terminal, a finish past midnight and one generation
   reach tables with two live routes at one terminal.
   */
  lemma TwoLiveRoutes() returns (states: seq<Db>, events: seq<Event>, r: Id, r': Id)
    ensures Run(DIRECTORY, states, events) && |events| == 2 && Advancing(2, events)
    ensures AllReadable(states[0]) && Linked(states[0]) && LiveIsNewest(states[0].routes)
    ensures CreatedBy(states[0].routes, 2)
    ensures var routes := states[2].routes;
      && r in routes && r' in routes && r != r' && Live(routes[r]) && Live(routes[r'])
      && routes[r].terminalId == routes[r'].terminalId
  {
    hide SetState, AfterGenerate, Decide, Visible, StoresNew, AfterSweep;
    var g := PLANNING;
    HiddenRows();
    NothingExpired();
    HiddenIsNotVisible();
    DecidesOnANewRoute();
    r, r' := SecondLiveRoute(Hidden(), DIRECTORY, g, PLANNED_AT);
    states := [BEFORE, Hidden(), AfterGenerate(Hidden(), DIRECTORY, g, PLANNED_AT)];
    events := [Event(Courier(0, FINISH), FINISHED_AT), Event(Generate(g), PLANNED_AT)];
    assert Supplied(states[0], events[0]) && Leads(states[0], DIRECTORY, events[0], states[1]);
    PlanningIsSupplied();
    assert Leads(states[1], DIRECTORY, events[1], states[2]);
    BeforeIsSound();
  }

  lemma BeforeIsSound()
    ensures AllReadable(BEFORE) && Linked(BEFORE) && LiveIsNewest(BEFORE.routes) && CreatedBy(BEFORE.routes, 2)
  {
  }
}
