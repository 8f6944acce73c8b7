/** A whole drive, from loading to the finish: what is conserved along it and how it ends. */
module WholeDrive {
  import opened Base
  import opened Domain
  import opened Tables
  import opened Store
  import opened CourierSpec
  import opened Driving

  // ---------------------------------------------------------------- runs of requests

  /** The first `k` requests of a run, each at its own instant; an exception ends the run. */
  ghost function After(db: Db, dir: Directory, user: Id, rqs: seq<Request>, clock: seq<Instant>, k: nat): Result
    requires k <= |rqs| == |clock|
  {
    if k == 0 then Done(db)
    else
      var before := After(db, dir, user, rqs, clock, k - 1);
      if before.Raised? then before else SetState(before.db, dir, user, rqs[k - 1], clock[k - 1])
  }

  /** The clock strictly advances and stays within one UTC day. */
  predicate OneDay(clock: seq<Instant>) {
    forall i, j :: 0 <= i < j < |clock| ==> clock[i] < clock[j] && SameDay(clock[i], clock[j])
  }

  // ---------------------------------------------------------------- the script of a drive

  /** How each stop ends: None is a delivery, otherwise the reason it failed. */
  type Outcomes = seq<Option<UndeliverType>>

  function RequestAt(t: Trip, outcomes: Outcomes, k: nat): Request
    requires |t.orders| == |outcomes| > 0 && k < 3 * |t.orders| + 3
  {
    if k == 0 then Ask(t, 0, CourierStep.StartLoading, None)
    else if k == 1 then Ask(t, 0, CourierStep.StartRoute, None)
    else if k == 3 * |t.orders| + 2 then Ask(t, 0, CourierStep.FinishRoute, None)
    else
      var i := (k - 2) / 3;
      if (k - 2) % 3 == 0 then Ask(t, i, CourierStep.ArrivedAtDelivery, None)
      else if (k - 2) % 3 == 1 then
        EndRequest(t, i, outcomes[i])
      else Ask(t, i, if i + 1 < |t.orders| then CourierStep.StartNextDelivery else CourierStep.ReturnToHub, None)
  }

  function Script(t: Trip, outcomes: Outcomes): seq<Request>
    requires |t.orders| == |outcomes| > 0
  {
    seq(3 * |t.orders| + 3, k requires 0 <= k < 3 * |t.orders| + 3 => RequestAt(t, outcomes, k))
  }

  /** The orders delivered at the first `d` stops, in driving order. */
  function DeliveredAt(t: Trip, outcomes: Outcomes, d: nat): seq<Id>
    requires d <= |outcomes| == |t.orders|
  {
    if d == 0 then []
    else DeliveredAt(t, outcomes, d - 1) + if outcomes[d - 1].None? then [t.orders[d - 1]] else []
  }

  /** The delivered list as the drive finds it; a courier's first request puts its own order there. */
  function StartList(db: Db, t: Trip): seq<Id>
    requires |t.orders| > 0
  {
    if t.courier in db.couriers then db.couriers[t.courier].delivered else [t.orders[0]]
  }

  /** The delivered list after `d` stops: a delivered order already in the list is not added again. */
  function ListAt(start: seq<Id>, t: Trip, outcomes: Outcomes, d: nat): seq<Id>
    requires d <= |outcomes| == |t.orders|
  {
    if d == 0 then start
    else
      var list := ListAt(start, t, outcomes, d - 1);
      if outcomes[d - 1].None? && t.orders[d - 1] !in list then list + [t.orders[d - 1]] else list
  }

  // ---------------------------------------------------------------- the state along the drive

  /** One instant for each request of the drive. */
  predicate Clocked(t: Trip, clock: seq<Instant>) {
    |clock| == 3 * |t.orders| + 3
  }

  /** Stop `j` ended as driven, and when it was: mission, order and their times agree with the outcome. */
  predicate EndedAsDriven(db: Db, t: Trip, outcomes: Outcomes, clock: seq<Instant>, j: nat)
    requires j < |t.missions| == |t.orders| == |outcomes| && Clocked(t, clock)
  {
    && t.missions[j] in db.missions && t.orders[j] in db.orders
    && var m, o, ended := db.missions[t.missions[j]], db.orders[t.orders[j]], clock[3 * j + 3];
    && m.actualArrival == Some(TimeOf(clock[3 * j + 2])) && m.deliveryScan == Some(ended)
    && match outcomes[j]
       case None =>
         && o.status == OrderStatus.Delivered && o.actualDelivery == Some(ended) && o.latest.Some?
         && m.status == Some(Known(if TimeOf(ended) > o.latest.value
                                   then MissionStatus.DeliveredWithDelay else MissionStatus.Delivered))
       case Some(reason) =>
         o.status == OrderStatus.Postponed && m.status == Some(Reason(reason)) && m.postponed == Some(Reported(reason))
  }

  /** Stop `j` was left when its third request was made, after a service of the whole seconds since the arrival. */
  predicate Left(db: Db, t: Trip, clock: seq<Instant>, j: nat)
    requires j < |t.missions| == |t.orders| && Clocked(t, clock)
  {
    && t.missions[j] in db.missions
    && var m, arrived, left := db.missions[t.missions[j]], clock[3 * j + 2] as int, clock[3 * j + 4] as int;
    m.actualFinish == Some(TimeOf(left))
    && WholeSeconds(m.actualServiceTime, left - arrived)
  }

  /** `f` stops are left behind and `d` have their outcome; everything off the trip is as at the start. */
  ghost predicate Underway(db0: Db, db: Db, dir: Directory, t: Trip, outcomes: Outcomes, clock: seq<Instant>, f: nat,
                           d: nat)
  {
    && Holds(db, dir, t) && Clocked(t, clock)
    && f <= d <= |t.missions| == |outcomes|
    && OffTripUntouched(db0, db, t)
    && (forall j :: 0 <= j < d ==> EndedAsDriven(db, t, outcomes, clock, j))
    && (forall j :: 0 <= j < f ==> Left(db, t, clock, j))
    && db.couriers[t.courier].delivered == ListAt(StartList(db0, t), t, outcomes, d)
    && db.usage[t.usageRow].count == db0.usage[t.usageRow].count + |DeliveredAt(t, outcomes, d)|
    && RouteUnderway(db.routes[t.route], t, clock, f)
  }

  predicate RouteUnderway(r: Route, t: Trip, clock: seq<Instant>, f: nat)
    requires f <= |t.missions| && |t.missions| > 0 && Clocked(t, clock)
  {
    && r.loadingStart == Some(clock[0]) && r.actualStart == Some(TimeOf(clock[1])) && r.actualFinish.None?
    && r.status == (if f < |t.missions| then RouteStatus.Ongoing else RouteStatus.ReturnToHub)
    && r.currentMission == Some(t.missions[if f < |t.missions| then f else f - 1])
  }

  predicate OffTripUntouched(db0: Db, db: Db, t: Trip) {
    && db.routes.Keys == db0.routes.Keys && (forall r <- db0.routes :: r != t.route ==> db.routes[r] == db0.routes[r])
    && db.missions.Keys == db0.missions.Keys
    && (forall m <- db0.missions :: m !in t.missions ==> db.missions[m] == db0.missions[m])
    && db.orders.Keys == db0.orders.Keys
    && (forall o <- db0.orders :: o !in t.orders ==> db.orders[o] == db0.orders[o])
    && db.couriers.Keys == db0.couriers.Keys + {t.courier}
    && (forall c <- db0.couriers :: c != t.courier ==> db.couriers[c] == db0.couriers[c])
    && db.usage.Keys == db0.usage.Keys
    && (forall u <- db0.usage :: u != t.usageRow ==> db.usage[u] == db0.usage[u])
  }

  // ---------------------------------------------------------------- one request at a stop

  predicate SameLinks(m: Mission, m': Mission) {
    && m'.routeId == m.routeId && m'.orderId == m.orderId && m'.position == m.position
    && (MissionReadable(m) ==> MissionReadable(m'))
  }

  /** The trip stays in the tables while links, positions, windows and readability do. */
  ghost predicate Keeps(db: Db, db': Db, t: Trip) {
    && db'.routes.Keys == db.routes.Keys && RouteAssigned(db', t.route, t.courier)
    && db'.missions.Keys == db.missions.Keys && db'.orders.Keys == db.orders.Keys
    && (forall m <- db.missions :: SameLinks(db.missions[m], db'.missions[m]))
    && (forall o <- db.orders :: HasWindow(db.orders[o]) ==> HasWindow(db'.orders[o]))
    && t.courier in db'.couriers
    && db'.usage.Keys == db.usage.Keys
    && (forall u <- db.usage :: db'.usage[u].customer == db.usage[u].customer)
  }

  lemma StillHolds(db: Db, db': Db, dir: Directory, t: Trip)
    requires Holds(db, dir, t) && Keeps(db, db', t)
    ensures Holds(db', dir, t)
  {
    assert UsageRowsOf(db'.usage, t.customer) == UsageRowsOf(db.usage, t.customer);
    forall i | 0 <= i < |t.missions| ensures MissionHolds(db', t, i) {
      assert MissionHolds(db, t, i);
    }
  }

  /** Only the rows of stop `i`, the route, the courier and the usage row differ. */
  predicate OnlyStop(db: Db, db': Db, t: Trip, i: nat)
    requires i < |t.missions| == |t.orders|
  {
    && db'.routes.Keys == db.routes.Keys && db'.missions.Keys == db.missions.Keys && db'.orders.Keys == db.orders.Keys
    && db'.couriers.Keys == db.couriers.Keys && db'.usage.Keys == db.usage.Keys
    && (forall r <- db.routes :: r != t.route ==> db'.routes[r] == db.routes[r])
    && (forall m <- db.missions :: m != t.missions[i] ==> db'.missions[m] == db.missions[m])
    && (forall o <- db.orders :: o != t.orders[i] ==> db'.orders[o] == db.orders[o])
    && (forall c <- db.couriers :: c != t.courier ==> db'.couriers[c] == db.couriers[c])
    && (forall u <- db.usage :: u != t.usageRow ==> db'.usage[u] == db.usage[u])
  }

  lemma EarlierStopsStay(db: Db, db': Db, dir: Directory, t: Trip, outcomes: Outcomes, clock: seq<Instant>, i: nat,
                         f: nat, d: nat)
    requires Holds(db, dir, t) && f <= d && d <= |outcomes| == |t.missions| && i < |t.missions|
    requires Clocked(t, clock)
    requires OnlyStop(db, db', t, i)
    requires forall j :: 0 <= j < d ==> EndedAsDriven(db, t, outcomes, clock, j)
    requires forall j :: 0 <= j < f ==> Left(db, t, clock, j)
    ensures forall j :: 0 <= j < d && j != i ==> EndedAsDriven(db', t, outcomes, clock, j)
    ensures forall j :: 0 <= j < f && j != i ==> Left(db', t, clock, j)
  {
    forall j | 0 <= j < d && j != i
      ensures EndedAsDriven(db', t, outcomes, clock, j)
      ensures j < f ==> Left(db', t, clock, j)
    {
      Distinct(db, dir, t, j, i);
      assert EndedAsDriven(db, t, outcomes, clock, j);
      assert j < f ==> Left(db, t, clock, j);
    }
  }

  lemma OffTripStays(db0: Db, db: Db, db': Db, t: Trip, i: nat)
    requires OffTripUntouched(db0, db, t) && i < |t.missions| == |t.orders| && OnlyStop(db, db', t, i)
    ensures OffTripUntouched(db0, db', t)
  {
    assert t.missions[i] in t.missions && t.orders[i] in t.orders;
  }

  /** It is enough to look at the rows of the stop. */
  lemma KeepsFromStop(db: Db, db': Db, dir: Directory, t: Trip, i: nat)
    requires Holds(db, dir, t) && i < |t.missions| && MissionHolds(db, t, i) && OnlyStop(db, db', t, i)
    requires SameLinks(db.missions[t.missions[i]], db'.missions[t.missions[i]])
    requires HasWindow(db'.orders[t.orders[i]]) && RouteAssigned(db', t.route, t.courier)
    requires db'.usage[t.usageRow].customer == db.usage[t.usageRow].customer
    ensures Keeps(db, db', t)
  {
    hide MissionReadable, RouteReadable;
  }

  lemma CompletedReadable(m: Mission, now: Instant)
    requires ArrivedBefore(m, now)
    ensures SameLinks(m, Completed(m, TimeOf(now)))
  {
  }

  lemma ArrivalKeeps(db: Db, dir: Directory, t: Trip, i: nat, now: Instant)
    requires Holds(db, dir, t) && i < |t.missions| && MissionHolds(db, t, i)
    ensures var db' := AfterArrival(db, t, i, now);
      OnlyStop(db, db', t, i) && Keeps(db, db', t) && db'.usage == db.usage && db'.routes == db.routes
      && db'.couriers[t.courier].delivered == db.couriers[t.courier].delivered
  {
  }

  lemma Arrives(db0: Db, db: Db, dir: Directory, t: Trip, outcomes: Outcomes, clock: seq<Instant>, i: nat, now: Instant)
    requires Underway(db0, db, dir, t, outcomes, clock, i, i)
    requires i < |t.missions| == |t.orders| && MissionHolds(db, t, i)
    ensures Underway(db0, AfterArrival(db, t, i, now), dir, t, outcomes, clock, i, i)
    ensures MissionHolds(AfterArrival(db, t, i, now), t, i)
    ensures AfterArrival(db, t, i, now).routes == db.routes
    ensures AfterArrival(db, t, i, now).missions[t.missions[i]].actualArrival == Some(TimeOf(now))
  {
    hide Holds, OffTripUntouched, Keeps, OnlyStop, EndedAsDriven, Left, MissionHolds, HasWindow, MissionReadable;
    ArrivalKeeps(db, dir, t, i, now);
    OnwardFrom(db0, db, AfterArrival(db, t, i, now), dir, t, outcomes, clock, i, i, i);
  }

  lemma EndKeeps(db: Db, dir: Directory, t: Trip, start: seq<Id>, outcomes: Outcomes, clock: seq<Instant>, i: nat,
                 now: Instant)
    requires Holds(db, dir, t) && i < |t.missions| == |outcomes| && MissionHolds(db, t, i)
    requires Clocked(t, clock) && now == clock[3 * i + 3]
    requires db.missions[t.missions[i]].actualArrival == Some(TimeOf(clock[3 * i + 2]))
    requires db.couriers[t.courier].delivered == ListAt(start, t, outcomes, i)
    ensures var db' := AfterEnd(db, t, i, outcomes[i], now);
      OnlyStop(db, db', t, i) && Keeps(db, db', t) && db'.routes == db.routes
      && db'.missions[t.missions[i]].actualArrival == db.missions[t.missions[i]].actualArrival
      && EndedAsDriven(db', t, outcomes, clock, i)
      && db'.couriers[t.courier].delivered == ListAt(start, t, outcomes, i + 1)
      && db'.usage[t.usageRow].count
         == db.usage[t.usageRow].count + |DeliveredAt(t, outcomes, i + 1)| - |DeliveredAt(t, outcomes, i)|
  {
    KeepsFromStop(db, AfterEnd(db, t, i, outcomes[i], now), dir, t, i);
  }

  lemma Ends(db0: Db, db: Db, dir: Directory, t: Trip, outcomes: Outcomes, clock: seq<Instant>, i: nat, now: Instant)
    requires Underway(db0, db, dir, t, outcomes, clock, i, i)
    requires i < |t.missions| == |t.orders| && MissionHolds(db, t, i)
    requires t.usageRow in db.usage
    requires Clocked(t, clock) && now == clock[3 * i + 3]
    requires db.missions[t.missions[i]].actualArrival == Some(TimeOf(clock[3 * i + 2]))
    ensures Underway(db0, AfterEnd(db, t, i, outcomes[i], now), dir, t, outcomes, clock, i, i + 1)
    ensures MissionHolds(AfterEnd(db, t, i, outcomes[i], now), t, i)
    ensures AfterEnd(db, t, i, outcomes[i], now).routes == db.routes
    ensures AfterEnd(db, t, i, outcomes[i], now).missions[t.missions[i]].actualArrival
         == db.missions[t.missions[i]].actualArrival
  {
    hide Holds, OffTripUntouched, Keeps, OnlyStop, EndedAsDriven, Left, AfterEnd, MissionHolds, DeliveredAt, ListAt;
    EndKeeps(db, dir, t, StartList(db0, t), outcomes, clock, i, now);
    OnwardFrom(db0, db, AfterEnd(db, t, i, outcomes[i], now), dir, t, outcomes, clock, i, i, i);
  }

  lemma LeavingKeeps(db: Db, dir: Directory, t: Trip, outcomes: Outcomes, clock: seq<Instant>, i: nat, now: Instant)
    requires Holds(db, dir, t) && i < |t.missions| == |outcomes| && MissionHolds(db, t, i)
    requires ArrivedBefore(db.missions[t.missions[i]], now)
    requires OneDay(clock) && Clocked(t, clock) && now == clock[3 * i + 4]
    requires EndedAsDriven(db, t, outcomes, clock, i) && RouteUnderway(db.routes[t.route], t, clock, i)
    ensures var db' := AfterLeaving(db, t, i, now);
      OnlyStop(db, db', t, i) && Keeps(db, db', t) && db'.usage == db.usage
      && db'.couriers[t.courier].delivered == db.couriers[t.courier].delivered
      && EndedAsDriven(db', t, outcomes, clock, i) && Left(db', t, clock, i)
      && RouteUnderway(db'.routes[t.route], t, clock, i + 1)
      && db'.routes[t.route].actualStart == db.routes[t.route].actualStart
  {
    hide MissionReadable, Keeps, Linked;
    var db' := AfterLeaving(db, t, i, now);
    CompletedReadable(db.missions[t.missions[i]], now);
    assert db'.missions[t.missions[i]] == Completed(db.missions[t.missions[i]], TimeOf(now));
    KeepsFromStop(db, db', dir, t, i);
  }

  lemma Leaves(db0: Db, db: Db, dir: Directory, t: Trip, outcomes: Outcomes, clock: seq<Instant>, i: nat, now: Instant)
    requires Underway(db0, db, dir, t, outcomes, clock, i, i + 1)
    requires i < |t.missions| == |t.orders| && MissionHolds(db, t, i)
    requires ArrivedBefore(db.missions[t.missions[i]], now) && t.route in db.routes
    requires OneDay(clock) && now == clock[3 * i + 4]
    ensures var db' := AfterLeaving(db, t, i, now);
      Underway(db0, db', dir, t, outcomes, clock, i + 1, i + 1) && t.route in db'.routes
      && db'.routes[t.route].actualStart == db.routes[t.route].actualStart
  {
    hide Holds, OffTripUntouched, Keeps, OnlyStop, EndedAsDriven, Left, AfterLeaving, MissionHolds, DeliveredAt, ListAt,
         RouteUnderway;
    LeavingKeeps(db, dir, t, outcomes, clock, i, now);
    OnwardFrom(db0, db, AfterLeaving(db, t, i, now), dir, t, outcomes, clock, i, i, i + 1);
  }

  /** What a request at stop `i` keeps of a drive under way. */
  lemma OnwardFrom(db0: Db, db: Db, db': Db, dir: Directory, t: Trip, outcomes: Outcomes, clock: seq<Instant>, i: nat,
                   f: nat, d: nat)
    requires Underway(db0, db, dir, t, outcomes, clock, f, d) && i < |t.missions| == |t.orders|
    requires OnlyStop(db, db', t, i) && Keeps(db, db', t)
    ensures Holds(db', dir, t) && MissionHolds(db', t, i) && OffTripUntouched(db0, db', t)
    ensures t.route in db'.routes
    ensures forall j :: 0 <= j < d && j != i ==> EndedAsDriven(db', t, outcomes, clock, j)
    ensures forall j :: 0 <= j < f && j != i ==> Left(db', t, clock, j)
  {
    StillHolds(db, db', dir, t);
    OffTripStays(db0, db, db', t, i);
    EarlierStopsStay(db, db', dir, t, outcomes, clock, i, f, d);
    assert MissionHolds(db', t, i);
  }

  /** An order still to come is not in the delivered list. */
  lemma {:induction false} DeliveredAreBefore(db: Db, dir: Directory, t: Trip, outcomes: Outcomes, i: nat, d: nat)
    requires Assigned(db, dir, t) && d <= i < |t.orders| == |outcomes|
    ensures t.orders[i] !in DeliveredAt(t, outcomes, d)
  {
    if d == 0 {
    } else {
      DeliveredAreBefore(db, dir, t, outcomes, i, d - 1);
      Distinct(db, dir, t, d - 1, i);
    }
  }

  // ---------------------------------------------------------------- the whole drive

  /** A trip about to be driven: the route has no finish yet. */
  ghost predicate Ready(db: Db, dir: Directory, t: Trip) {
    Assigned(db, dir, t) && db.routes[t.route].actualFinish.None?
  }

  /** One more request of a run that has not failed. */
  lemma OneMore(db: Db, dir: Directory, user: Id, rqs: seq<Request>, clock: seq<Instant>, k: nat, db1: Db, db2: Db)
    requires k < |rqs| == |clock| && After(db, dir, user, rqs, clock, k) == Done(db1)
    requires SetState(db1, dir, user, rqs[k], clock[k]) == Done(db2)
    ensures After(db, dir, user, rqs, clock, k + 1) == Done(db2)
  {
    hide SetState;
  }

  /** The tables with the row a courier's first request creates. */
  function Seen(db: Db, t: Trip): Db
    requires |t.orders| > 0
  {
    WithCourier(db, t.courier, Ask(t, 0, CourierStep.StartLoading, None))
  }

  lemma FirstRequest(db: Db, dir: Directory, t: Trip, now: Instant)
    requires Ready(db, dir, t)
    ensures var db0, rq := Seen(db, t), Ask(t, 0, CourierStep.StartLoading, None);
      && Ready(db0, dir, t) && Holds(db0, dir, t) && db0.couriers[t.courier].delivered == StartList(db, t)
      && SetState(db, dir, t.user, rq, now) == SetState(db0, dir, t.user, rq, now)
  {
    hide Process, Conclude, MissionReadable;
    forall i | 0 <= i < |t.missions| ensures MissionHolds(Seen(db, t), t, i) {
      assert MissionHolds(db, t, i);
    }
  }

  lemma Starts(db: Db, dir: Directory, t: Trip, outcomes: Outcomes, clock: seq<Instant>) returns (db': Db)
    requires Ready(db, dir, t) && |outcomes| == |t.orders| && OneDay(clock) && |clock| == 3 * |t.orders| + 3
    ensures After(db, dir, t.user, Script(t, outcomes), clock, 2) == Done(db')
    ensures Underway(db, db', dir, t, outcomes, clock, 0, 0) && t.route in db'.routes
    ensures db'.routes[t.route].actualStart == Some(TimeOf(clock[1]))
  {
    hide SetState, Underway, AfterLoading, AfterStart, EndRequest, WithCourier;
    var rqs := Script(t, outcomes);
    var db0 := Seen(db, t);
    FirstRequest(db, dir, t, clock[0]);
    var db1 := AfterLoading(db0, t, clock[0]);
    LoadingIsReady(db0, dir, t, clock[0]);
    LoadingEffect(db0, dir, t, clock[0]);
    OneMore(db, dir, t.user, rqs, clock, 0, db, db1);
    db' := AfterStart(db1, t, clock[1]);
    StartEffect(db1, dir, t, clock[1]);
    OneMore(db, dir, t.user, rqs, clock, 1, db1, db');
    StartsUnderway(db, dir, t, outcomes, clock, clock[0], clock[1]);
  }

  lemma LoadingIsReady(db: Db, dir: Directory, t: Trip, now: Instant)
    requires Ready(db, dir, t) && Holds(db, dir, t)
    ensures Ready(AfterLoading(db, t, now), dir, t) && Holds(AfterLoading(db, t, now), dir, t)
  {
    hide MissionReadable;
    StillHolds(db, AfterLoading(db, t, now), dir, t);
  }

  lemma StartsUnderway(db: Db, dir: Directory, t: Trip, outcomes: Outcomes, clock: seq<Instant>, loading: Instant,
                       now: Instant)
    requires Ready(db, dir, t) && |outcomes| == |t.orders| && t.route in AfterLoading(Seen(db, t), t, loading).routes
    requires Clocked(t, clock) && loading == clock[0] && now == clock[1]
    ensures var db' := AfterStart(AfterLoading(Seen(db, t), t, loading), t, now);
      && Underway(db, db', dir, t, outcomes, clock, 0, 0) && t.route in db'.routes
      && db'.routes[t.route].actualStart == Some(TimeOf(now))
  {
    hide Underway, OffTripUntouched, AfterStart, MissionReadable, MissionHolds, HasWindow, Linked;
    FirstRequest(db, dir, t, loading);
    LoadingIsReady(Seen(db, t), dir, t, loading);
    LoadingOffTrip(db, dir, t, loading);
    StartsFrom(db, dir, t, outcomes, clock, AfterLoading(Seen(db, t), t, loading), now);
  }

  lemma LoadingOffTrip(db: Db, dir: Directory, t: Trip, now: Instant)
    requires Ready(db, dir, t) && t.route in Seen(db, t).routes
    ensures var db1 := AfterLoading(Seen(db, t), t, now);
      && OffTripUntouched(db, db1, t) && db1.usage == db.usage && t.route in db1.routes
      && db1.routes[t.route].actualFinish.None? && t.courier in db1.couriers
      && db1.couriers[t.courier].delivered == StartList(db, t)
      && db1.routes[t.route].loadingStart == Some(now)
  {
    hide MissionHolds, Linked, HasWindow, RouteReadable;
  }

  lemma StartsFrom(db: Db, dir: Directory, t: Trip, outcomes: Outcomes, clock: seq<Instant>, db1: Db, now: Instant)
    requires |outcomes| == |t.orders| && Holds(db1, dir, t) && OffTripUntouched(db, db1, t)
    requires db1.routes[t.route].actualFinish.None? && db1.usage == db.usage
    requires Clocked(t, clock) && db1.routes[t.route].loadingStart == Some(clock[0]) && now == clock[1]
    requires db1.couriers[t.courier].delivered == StartList(db, t)
    ensures var db' := AfterStart(db1, t, now);
      && Underway(db, db', dir, t, outcomes, clock, 0, 0) && t.route in db'.routes
      && db'.routes[t.route].actualStart == Some(TimeOf(now))
  {
    hide MissionReadable, MissionHolds, HasWindow, Holds, Assigned, OffTripUntouched;
    HoldsRows(db1, dir, t);
    StartKeeps(db, db1, dir, t, now);
  }

  lemma HoldsRows(db: Db, dir: Directory, t: Trip)
    requires Holds(db, dir, t)
    ensures t.route in db.routes && RouteAssigned(db, t.route, t.courier) && t.usageRow in db.usage
    ensures t.courier in db.couriers && |t.missions| == |t.orders| > 0
  {
  }

  lemma StartKeeps(db: Db, db1: Db, dir: Directory, t: Trip, now: Instant)
    requires Holds(db1, dir, t) && OffTripUntouched(db, db1, t) && db1.routes[t.route].actualFinish.None?
    ensures Holds(AfterStart(db1, t, now), dir, t) && OffTripUntouched(db, AfterStart(db1, t, now), t)
  {
    hide MissionHolds, HasWindow, OffTripUntouched, MissionReadable, RouteReadable;
    StartKeepsTrip(db1, dir, t, now);
    StillHolds(db1, AfterStart(db1, t, now), dir, t);
    StartsOffTrip(db, db1, t, now);
  }

  lemma StartKeepsTrip(db: Db, dir: Directory, t: Trip, now: Instant)
    requires Holds(db, dir, t) && db.routes[t.route].actualFinish.None?
    ensures Keeps(db, AfterStart(db, t, now), t)
  {
    hide MissionHolds, HasWindow, Linked;
  }

  lemma StartsOffTrip(db: Db, db1: Db, t: Trip, now: Instant)
    requires OffTripUntouched(db, db1, t) && t.route in db1.routes && |t.missions| > 0
    requires forall m <- db1.missions :: db1.missions[m].routeId == t.route ==> m in t.missions
    ensures OffTripUntouched(db, AfterStart(db1, t, now), t)
  {
  }

  lemma LastRequest(t: Trip, outcomes: Outcomes)
    requires |t.orders| == |outcomes| > 0
    ensures Script(t, outcomes)[3 * |t.orders| + 2] == Ask(t, 0, CourierStep.FinishRoute, None)
  {
  }

  /** The three requests of stop `i`. */
  lemma Stop(db0: Db, db: Db, dir: Directory, t: Trip, outcomes: Outcomes, clock: seq<Instant>, i: nat)
    returns (db': Db)
    requires |outcomes| == |t.orders| == |t.missions| && i < |t.orders|
    requires OneDay(clock) && |clock| == 3 * |t.orders| + 3
    requires After(db0, dir, t.user, Script(t, outcomes), clock, 3 * i + 2) == Done(db)
    requires Underway(db0, db, dir, t, outcomes, clock, i, i) && t.route in db.routes
    ensures After(db0, dir, t.user, Script(t, outcomes), clock, 3 * i + 5) == Done(db')
    ensures Underway(db0, db', dir, t, outcomes, clock, i + 1, i + 1) && t.route in db'.routes
    ensures db'.routes[t.route].actualStart == db.routes[t.route].actualStart
  {
    hide SetState, Underway, Holds, After, AfterEnd, AfterLeaving, MissionReadable, HasWindow, AfterArrival;
    var rqs := Script(t, outcomes);
    var k := 3 * i + 2;
    HoldsUnderway(db0, db, dir, t, outcomes, clock, i, i, i);
    ArrivalEffect(db, dir, t, i, clock[k]);
    Arrives(db0, db, dir, t, outcomes, clock, i, clock[k]);
    var db1 := AfterArrival(db, t, i, clock[k]);
    OneMore(db0, dir, t.user, rqs, clock, k, db, db1);

    HoldsUnderway(db0, db1, dir, t, outcomes, clock, i, i, i);
    EndEffect(db1, dir, t, i, outcomes[i], clock[k + 1]);
    Ends(db0, db1, dir, t, outcomes, clock, i, clock[k + 1]);
    var db2 := AfterEnd(db1, t, i, outcomes[i], clock[k + 1]);
    OneMore(db0, dir, t.user, rqs, clock, k + 1, db1, db2);

    HoldsUnderway(db0, db2, dir, t, outcomes, clock, i, i, i + 1);
    SameDayOrder(clock[k], clock[k + 2]);
    if i + 1 < |t.missions| {
      NextEffect(db2, dir, t, i, clock[k + 2]);
    } else {
      ReturnEffect(db2, dir, t, i, clock[k + 2]);
    }
    Leaves(db0, db2, dir, t, outcomes, clock, i, clock[k + 2]);
    db' := AfterLeaving(db2, t, i, clock[k + 2]);
    OneMore(db0, dir, t.user, rqs, clock, k + 2, db2, db');
  }

  lemma HoldsUnderway(db0: Db, db: Db, dir: Directory, t: Trip, outcomes: Outcomes, clock: seq<Instant>, i: nat,
                      f: nat, d: nat)
    requires Underway(db0, db, dir, t, outcomes, clock, f, d) && i < |t.missions|
    ensures Holds(db, dir, t) && |t.missions| == |t.orders| && MissionHolds(db, t, i)
    ensures t.route in db.routes && t.usageRow in db.usage
  {
    assert MissionHolds(db, t, i);
  }

  lemma {:induction false} Stops(db: Db, dir: Directory, t: Trip, outcomes: Outcomes, clock: seq<Instant>, i: nat)
    returns (db': Db)
    requires Ready(db, dir, t) && |outcomes| == |t.orders| && OneDay(clock) && |clock| == 3 * |t.orders| + 3
    requires i <= |t.orders|
    ensures After(db, dir, t.user, Script(t, outcomes), clock, 3 * i + 2) == Done(db')
    ensures Underway(db, db', dir, t, outcomes, clock, i, i) && t.route in db'.routes
    ensures db'.routes[t.route].actualStart == Some(TimeOf(clock[1]))
  {
    hide SetState, Underway, RequestAt;
    if i == 0 {
      db' := Starts(db, dir, t, outcomes, clock);
    } else {
      var db1 := Stops(db, dir, t, outcomes, clock, i - 1);
      db' := Stop(db, db1, dir, t, outcomes, clock, i - 1);
    }
  }

  /** What a finished drive has made of the tables it started from. */
  ghost predicate Conserved(db: Db, end: Db, t: Trip, outcomes: Outcomes, clock: seq<Instant>) {
    && |t.missions| == |t.orders| == |outcomes| && Clocked(t, clock)
    && OffTripUntouched(db, end, t)
    && (forall i :: 0 <= i < |t.orders| ==> EndedAsDriven(end, t, outcomes, clock, i))
    && (forall i :: 0 <= i < |t.orders| ==> Left(end, t, clock, i))
    && t.usageRow in db.usage && t.usageRow in end.usage
    && end.usage[t.usageRow].count == db.usage[t.usageRow].count + |DeliveredAt(t, outcomes, |t.orders|)|
    && t.route in end.routes && end.routes[t.route].status == RouteStatus.Finished
    && end.routes[t.route].loadingStart == Some(clock[0])
    && end.routes[t.route].actualStart == Some(TimeOf(clock[1]))
    && end.routes[t.route].actualFinish == Some(TimeOf(clock[|clock| - 1]))
    && end.routes[t.route].totalActualWaiting == Some(TotalWaiting(end.missions, t.route))
    && t.courier in end.couriers && end.couriers[t.courier] == CourierState([], CourierStep.FinishRoute)
  }

  lemma Finishes(db0: Db, db: Db, dir: Directory, t: Trip, outcomes: Outcomes, clock: seq<Instant>, now: Instant)
    requires Underway(db0, db, dir, t, outcomes, clock, |outcomes|, |outcomes|) && t.route in db.routes
    requires db.routes[t.route].actualStart.Some? && db.routes[t.route].actualStart.value < TimeOf(now)
    ensures |t.orders| > 0
    ensures SetState(db, dir, t.user, Ask(t, 0, CourierStep.FinishRoute, None), now) == Done(AfterFinish(db, t, now))
  {
    hide SetState;
    assert Left(db, t, clock, |outcomes| - 1);
    FinishEffect(db, dir, t, now);
  }

  lemma Concludes(db0: Db, db: Db, dir: Directory, t: Trip, outcomes: Outcomes, clock: seq<Instant>, now: Instant)
    requires Underway(db0, db, dir, t, outcomes, clock, |outcomes|, |outcomes|) && t.route in db.routes
    requires |clock| > 0 && now == clock[|clock| - 1]
    ensures Conserved(db0, AfterFinish(db, t, now), t, outcomes, clock)
  {
    hide TotalWaiting, Holds, OffTripUntouched, HasWindow;
    var end := AfterFinish(db, t, now);
    FinishLeavesTheRest(db0, db, dir, t, now);
    forall i | 0 <= i < |t.orders| ensures EndedAsDriven(end, t, outcomes, clock, i) && Left(end, t, clock, i) {
      assert EndedAsDriven(db, t, outcomes, clock, i) && Left(db, t, clock, i);
    }
  }

  lemma FinishLeavesTheRest(db0: Db, db: Db, dir: Directory, t: Trip, now: Instant)
    requires Holds(db, dir, t) && OffTripUntouched(db0, db, t)
    ensures var end := AfterFinish(db, t, now);
      && OffTripUntouched(db0, end, t)
      && |t.missions| == |t.orders| && t.usageRow in db0.usage && t.usageRow in end.usage
      && t.courier in end.couriers && t.route in end.routes
  {
    hide TotalWaiting, MissionHolds;
  }

  /**
   Conservation over a whole drive, a courier's first or any later one. Every request succeeds; every mission
   shows the times at which its stop was reached, ended and left, its whole seconds of service, and the end it
   had, and so does its order; the usage count has risen by the number of delivered
   orders; the route is finished with the total of its missions' waiting times; no row off the trip has
   changed; and the courier's state is FINISHROUTE with an empty list, the reset to IDLE having been
   overwritten. Just before the finish the list is what the drive found, continued by the delivered orders
   that were not in it: exactly the delivered orders in driving order if and only if they begin with what
   the drive found. On a first drive that is when the first stop is a delivery.
   */
  lemma WholeDriveConserves(db: Db, dir: Directory, t: Trip, outcomes: Outcomes, clock: seq<Instant>)
    returns (before: Db, end: Db)
    requires Ready(db, dir, t) && |outcomes| == |t.orders| && OneDay(clock) && |clock| == 3 * |t.orders| + 3
    ensures After(db, dir, t.user, Script(t, outcomes), clock, |clock| - 1) == Done(before)
    ensures After(db, dir, t.user, Script(t, outcomes), clock, |clock|) == Done(end)
    ensures t.courier in before.couriers
    ensures var list, delivered := before.couriers[t.courier].delivered, DeliveredAt(t, outcomes, |t.orders|);
      && list == ListAt(StartList(db, t), t, outcomes, |t.orders|)
      && (list == delivered <==> StartList(db, t) <= delivered)
      && (t.courier !in db.couriers ==> (list == delivered <==> outcomes[0].None?))
    ensures Conserved(db, end, t, outcomes, clock)
  {
    hide SetState, After, RequestAt, Conserved, EndedAsDriven, Left, OffTripUntouched, AfterFinish;
    var last := clock[|clock| - 1];
    before := Stops(db, dir, t, outcomes, clock, |t.orders|);
    SameDayOrder(clock[1], last);
    Finishes(db, before, dir, t, outcomes, clock, last);
    LastRequest(t, outcomes);
    end := AfterFinish(before, t, last);
    OneMore(db, dir, t.user, Script(t, outcomes), clock, |clock| - 1, before, end);
    Concludes(db, before, dir, t, outcomes, clock, last);
    ListIsDelivered(db, dir, t, StartList(db, t), outcomes, |t.orders|);
    BeginsWithFirst(db, dir, t, outcomes, |t.orders|);
    OnePrefix(t.orders[0], DeliveredAt(t, outcomes, |t.orders|));
  }

  lemma OnePrefix(o: Id, list: seq<Id>)
    ensures [o] <= list <==> list != [] && list[0] == o
  {
    if list != [] && list[0] == o {
      assert list == [o] + list[1..];
    }
  }

  /** What the drive found stays at the head of the list. */
  lemma {:induction false} ListKeepsStart(start: seq<Id>, t: Trip, outcomes: Outcomes, d: nat)
    requires d <= |outcomes| == |t.orders|
    ensures start <= ListAt(start, t, outcomes, d)
  {
    if d == 0 {
    } else {
      ListKeepsStart(start, t, outcomes, d - 1);
    }
  }

  lemma {:induction false} AllListed(start: seq<Id>, t: Trip, outcomes: Outcomes, d: nat)
    requires d <= |outcomes| == |t.orders| && forall o <- DeliveredAt(t, outcomes, d) :: o in start
    ensures ListAt(start, t, outcomes, d) == start
  {
    if d == 0 {
    } else {
      var list := DeliveredAt(t, outcomes, d);
      assert outcomes[d - 1].None? ==> list[|list| - 1] == t.orders[d - 1];
      AllListed(start, t, outcomes, d - 1);
    }
  }

  /** The list holds the delivered orders alone, in driving order, exactly when they begin with what it held before. */
  lemma {:induction false} ListIsDelivered(db: Db, dir: Directory, t: Trip, start: seq<Id>, outcomes: Outcomes, d: nat)
    requires Assigned(db, dir, t) && d <= |outcomes| == |t.orders|
    ensures ListAt(start, t, outcomes, d) == DeliveredAt(t, outcomes, d) <==> start <= DeliveredAt(t, outcomes, d)
  {
    ListKeepsStart(start, t, outcomes, d);
    if d == 0 {
    } else if start <= DeliveredAt(t, outcomes, d - 1) {
      ListIsDelivered(db, dir, t, start, outcomes, d - 1);
      DeliveredAreBefore(db, dir, t, outcomes, d - 1, d - 1);
    } else if start <= DeliveredAt(t, outcomes, d) {
      assert start == DeliveredAt(t, outcomes, d);
      AllListed(start, t, outcomes, d);
    }
  }

  lemma {:induction false} BeginsWithFirst(db: Db, dir: Directory, t: Trip, outcomes: Outcomes, d: nat)
    requires Assigned(db, dir, t) && 0 < d <= |outcomes| == |t.orders|
    ensures var list := DeliveredAt(t, outcomes, d);
      list != [] && list[0] == t.orders[0] <==> outcomes[0].None?
  {
    if d == 1 {
      assert DeliveredAt(t, outcomes, 0) == [];
      assert DeliveredAt(t, outcomes, 1) == if outcomes[0].None? then [t.orders[0]] else [];
    } else {
      var shorter, list := DeliveredAt(t, outcomes, d - 1), DeliveredAt(t, outcomes, d);
      BeginsWithFirst(db, dir, t, outcomes, d - 1);
      Distinct(db, dir, t, 0, d - 1);
      if shorter == [] {
        assert list == if outcomes[d - 1].None? then [t.orders[d - 1]] else [];
      } else {
        assert list[0] == shorter[0];
      }
    }
  }

  /** The list holds what it held before and the orders of the delivered stops, and repeats none it did not repeat. */
  lemma {:induction false} ListIsExact(start: seq<Id>, t: Trip, outcomes: Outcomes, d: nat)
    requires d <= |outcomes| == |t.orders|
    ensures var list := ListAt(start, t, outcomes, d);
      && (forall o :: o in list <==> o in start || o in DeliveredAt(t, outcomes, d))
      && (NoRepeats(start) ==> NoRepeats(list))
  {
    if d == 0 {
    } else {
      ListIsExact(start, t, outcomes, d - 1);
    }
  }

  /** One of the first `d` stops was a delivery of this order. */
  predicate DeliveredWithin(t: Trip, outcomes: Outcomes, d: nat, o: Id)
    requires d <= |t.orders| == |outcomes|
  {
    exists j :: 0 <= j < d && outcomes[j].None? && t.orders[j] == o
  }

  lemma OneStopMore(t: Trip, outcomes: Outcomes, d: nat, o: Id)
    requires 0 < d <= |t.orders| == |outcomes|
    ensures DeliveredWithin(t, outcomes, d, o)
       <==> DeliveredWithin(t, outcomes, d - 1, o) || (outcomes[d - 1].None? && t.orders[d - 1] == o)
  {
  }

  /** The delivered list holds exactly the orders of the delivered stops, once each. */
  lemma {:induction false} DeliveredListIsExact(db: Db, dir: Directory, t: Trip, outcomes: Outcomes, d: nat)
    requires Assigned(db, dir, t) && d <= |t.orders| == |outcomes|
    ensures var list := DeliveredAt(t, outcomes, d);
      (forall o: Id :: o in list <==> DeliveredWithin(t, outcomes, d, o)) && NoRepeats(list)
  {
    hide Assigned, DeliveredWithin;
    if d == 0 {
      assert forall o: Id :: !DeliveredWithin(t, outcomes, 0, o) by { NoStopYet(t, outcomes); }
    } else {
      DeliveredListIsExact(db, dir, t, outcomes, d - 1);
      DeliveredAreBefore(db, dir, t, outcomes, d - 1, d - 1);
      forall o: Id ensures o in DeliveredAt(t, outcomes, d) <==> DeliveredWithin(t, outcomes, d, o) {
        OneStopMore(t, outcomes, d, o);
      }
    }
  }

  lemma NoStopYet(t: Trip, outcomes: Outcomes)
    requires |t.orders| == |outcomes|
    ensures forall o: Id :: !DeliveredWithin(t, outcomes, 0, o)
  {
  }
}
