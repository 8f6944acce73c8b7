/** The tables as one value, the queries over them, and the schema constraints they satisfy. */
module Tables {
  import opened Base
  import opened Domain

  datatype Db = Db(
    routes: map<Id, Route>,
    missions: map<Id, Mission>,
    orders: map<Id, Order>,
    couriers: map<Id, CourierState>,
    usage: map<Id, Usage>
  )

  /** The tables no modelled operation writes: users to their courier and to their billing customer. */
  datatype Directory = Directory(courierOf: map<Id, Id>, customerOf: map<Id, Id>)

  /** Foreign keys and the unique order of a mission. */
  ghost predicate Linked(db: Db) {
    && (forall m <- db.missions :: db.missions[m].routeId in db.routes && db.missions[m].orderId in db.orders)
    && (forall m <- db.missions, m' <- db.missions ::
          db.missions[m].orderId == db.missions[m'].orderId ==> m == m')
  }

  /** The unique barcode of an order. */
  ghost predicate UniqueBarcodes(orders: map<Id, Order>) {
    forall o <- orders, o' <- orders :: orders[o].barcode == orders[o'].barcode ==> o == o'
  }

  // ---------------------------------------------------------------- single-row lookups

  /** scalar_one_or_none: no row, the one row, or an exception for several. */
  datatype Lookup = Missing | One(id: Id) | Many

  function Sole(rows: set<Id>): Lookup {
    if rows == {} then Missing
    else if exists r | r in rows :: rows == {r} then
      var r :| r in rows && rows == {r};
      One(r)
    else Many
  }

  lemma SoleIs(rows: set<Id>, r: Id)
    ensures Sole(rows) == One(r) <==> rows == {r}
  {
    if rows == {r} {
      assert r in rows;
    }
  }

  function MissionsOf(missions: map<Id, Mission>, route: Id): set<Id> {
    set m | m in missions && missions[m].routeId == route
  }

  function MissionsFor(missions: map<Id, Mission>, order: Id): set<Id> {
    set m | m in missions && missions[m].orderId == order
  }

  function RowsOn(missions: map<Id, Mission>, order: Id, route: Id): set<Id> {
    set m | m in missions && missions[m].orderId == order && missions[m].routeId == route
  }

  function MissionOn(missions: map<Id, Mission>, order: Id, route: Id): Lookup {
    Sole(RowsOn(missions, order, route))
  }

  function AtPosition(missions: map<Id, Mission>, route: Id, position: int): set<Id> {
    set m | m in missions && missions[m].routeId == route && missions[m].position == Some(position)
  }

  function NextByPosition(missions: map<Id, Mission>, route: Id, position: int): Lookup {
    Sole(AtPosition(missions, route, position))
  }

  function UsageRowsOf(usage: map<Id, Usage>, customer: Id): set<Id> {
    set u | u in usage && usage[u].customer == customer
  }

  function UsageOf(usage: map<Id, Usage>, customer: Id): Lookup {
    Sole(UsageRowsOf(usage, customer))
  }

  lemma MissionOnIs(db: Db, m: Id)
    requires Linked(db) && m in db.missions
    ensures MissionOn(db.missions, db.missions[m].orderId, db.missions[m].routeId) == One(m)
    ensures MissionsFor(db.missions, db.missions[m].orderId) == {m}
  {
    var order, route := db.missions[m].orderId, db.missions[m].routeId;
    assert m in RowsOn(db.missions, order, route);
    assert RowsOn(db.missions, order, route) == {m};
    SoleIs({m}, m);
  }

  // ---------------------------------------------------------------- the first hundred rows

  const PAGE: nat := 100

  /** ORDER BY position_in_route ASC (absent positions last); equal positions by row id. */
  predicate Before(missions: map<Id, Mission>, a: Id, b: Id)
    requires a in missions && b in missions
  {
    var pa, pb := missions[a].position, missions[b].position;
    if pa == pb then a < b else pa.Some? && (pb.None? || pa.value < pb.value)
  }

  function Ahead(missions: map<Id, Mission>, m: Id): set<Id>
    requires m in missions
  {
    set m' | m' in missions && missions[m'].routeId == missions[m].routeId && Before(missions, m', m)
  }

  /** The rows MissionRepository.get_by_route_id selects: the route's first hundred by position. */
  function FirstPage(missions: map<Id, Mission>, route: Id): set<Id> {
    set m | m in missions && missions[m].routeId == route && |Ahead(missions, m)| < PAGE
  }

  /** What it returns: one row that cannot be read empties the whole result. */
  function PageOf(missions: map<Id, Mission>, route: Id): set<Id> {
    var page := FirstPage(missions, route);
    if forall m <- page :: MissionReadable(missions[m]) then page else {}
  }

  /** A route of at most a hundred missions is returned whole. */
  lemma ShortRoutesFitThePage(missions: map<Id, Mission>, route: Id)
    requires |MissionsOf(missions, route)| <= 100
    ensures FirstPage(missions, route) == MissionsOf(missions, route)
  {
    forall m | m in MissionsOf(missions, route) ensures m in FirstPage(missions, route) {
      assert Ahead(missions, m) <= MissionsOf(missions, route) - {m};
      Smaller(Ahead(missions, m), MissionsOf(missions, route) - {m});
    }
  }

  lemma Smaller(s: set<Id>, t: set<Id>)
    requires s <= t
    ensures |s| <= |t|
  {
    if s == {} {
    } else {
      var x :| x in s;
      Smaller(s - {x}, t - {x});
    }
  }

  // ---------------------------------------------------------------- what the first hundred are

  function Earlier(rows: set<Id>, before: (Id, Id) -> bool, m: Id): set<Id> {
    set x | x in rows && before(x, m)
  }

  /** A strict order in which any two different rows are comparable. */
  ghost predicate Orders(rows: set<Id>, before: (Id, Id) -> bool) {
    && (forall a <- rows :: !before(a, a))
    && (forall a <- rows, b <- rows :: a != b ==> before(a, b) || before(b, a))
    && (forall a <- rows, b <- rows, c <- rows :: before(a, b) && before(b, c) ==> before(a, c))
  }

  lemma {:induction false} LastExists(rows: set<Id>, before: (Id, Id) -> bool) returns (last: Id)
    requires rows != {} && Orders(rows, before)
    ensures last in rows && forall m <- rows :: m != last ==> before(m, last)
    decreases |rows|
  {
    last :| last in rows;
    if rows == {last} {
    } else {
      var other := LastExists(rows - {last}, before);
      last := if before(other, last) then last else other;
    }
  }

  /** As many rows have fewer than `k` before them as there are, but no more than `k`. */
  lemma {:induction false} CountFirst(rows: set<Id>, before: (Id, Id) -> bool, k: nat)
    requires Orders(rows, before)
    ensures |set m | m in rows && |Earlier(rows, before, m)| < k| == if |rows| <= k then |rows| else k
    decreases |rows|
  {
    var first := set m | m in rows && |Earlier(rows, before, m)| < k;
    if rows == {} {
      assert first == {};
    } else {
      var last := LastExists(rows, before);
      var rest := rows - {last};
      var firstOfRest := set m | m in rest && |Earlier(rest, before, m)| < k;
      CountFirst(rest, before, k);
      assert Earlier(rows, before, last) == rest;
      forall m | m in rest ensures Earlier(rows, before, m) == Earlier(rest, before, m) {
        assert !before(last, m);
      }
      assert first == if |rest| < k then firstOfRest + {last} else firstOfRest;
    }
  }

  /** Whatever has fewer than `k` rows before it comes before whatever has not. */
  lemma FirstComeFirst(rows: set<Id>, before: (Id, Id) -> bool, k: nat, a: Id, b: Id)
    requires Orders(rows, before) && a in rows && b in rows
    requires |Earlier(rows, before, a)| < k <= |Earlier(rows, before, b)|
    ensures before(a, b)
  {
    if !before(a, b) {
      assert Earlier(rows, before, b) <= Earlier(rows, before, a);
      Smaller(Earlier(rows, before, b), Earlier(rows, before, a));
    }
  }

  function InDrivingOrder(missions: map<Id, Mission>): (Id, Id) -> bool {
    (a: Id, b: Id) => a in missions && b in missions && Before(missions, a, b)
  }

  lemma DrivingOrders(missions: map<Id, Mission>, rows: set<Id>)
    requires rows <= missions.Keys
    ensures Orders(rows, InDrivingOrder(missions))
  {
  }

  lemma PageByRank(missions: map<Id, Mission>, route: Id)
    ensures var rows, before := MissionsOf(missions, route), InDrivingOrder(missions);
      FirstPage(missions, route) == set m | m in rows && |Earlier(rows, before, m)| < PAGE
  {
    var rows, before := MissionsOf(missions, route), InDrivingOrder(missions);
    forall m | m in rows ensures Ahead(missions, m) == Earlier(rows, before, m) {
    }
  }

  lemma DrivingOrderIsByPosition(missions: map<Id, Mission>, a: Id, b: Id)
    requires a in missions && b in missions
    ensures var pa, pb := missions[a].position, missions[b].position;
      InDrivingOrder(missions)(a, b)
      <==> (pa.Some? && (pb.None? || pa.value < pb.value)) || (pa == pb && a < b)
  {
  }

  /**
   The page of a route: as many missions as it has but at most a hundred, and every one of them in driving
   order before every one left out -- by position, absent positions last, equal ones by row id.
   */
  lemma PageIsTheFirstHundred(missions: map<Id, Mission>, route: Id)
    ensures var rows, page := MissionsOf(missions, route), FirstPage(missions, route);
      && page <= rows && |page| == (if |rows| <= 100 then |rows| else 100)
      && forall a <- page, b <- rows - page ::
           var pa, pb := missions[a].position, missions[b].position;
           (pa.Some? && (pb.None? || pa.value < pb.value)) || (pa == pb && a < b)
  {
    hide InDrivingOrder, FirstPage;
    var rows, before := MissionsOf(missions, route), InDrivingOrder(missions);
    DrivingOrders(missions, rows);
    PageByRank(missions, route);
    CountFirst(rows, before, PAGE);
    var page := FirstPage(missions, route);
    forall a, b | a in page && b in rows - page
      ensures var pa, pb := missions[a].position, missions[b].position;
        (pa.Some? && (pb.None? || pa.value < pb.value)) || (pa == pb && a < b)
    {
      FirstComeFirst(rows, before, PAGE, a, b);
      DrivingOrderIsByPosition(missions, a, b);
    }
  }

  /** The page depends only on which missions a route has and where they stand. */
  lemma SamePage(missions: map<Id, Mission>, missions': map<Id, Mission>, route: Id)
    requires missions.Keys == missions'.Keys
    requires forall m <- missions :: missions'[m].routeId == missions[m].routeId
                                     && missions'[m].position == missions[m].position
    ensures FirstPage(missions', route) == FirstPage(missions, route)
  {
    forall m | m in missions ensures Ahead(missions', m) == Ahead(missions, m) {
    }
  }

  // ---------------------------------------------------------------- sums

  function WaitOf(m: Mission): int {
    if m.actualWaiting.Some? then m.actualWaiting.value else 0
  }

  ghost function SumWaits(missions: map<Id, Mission>, rows: set<Id>): int
    requires rows <= missions.Keys
  {
    if rows == {} then 0
    else
      var m :| m in rows;
      WaitOf(missions[m]) + SumWaits(missions, rows - {m})
  }

  lemma {:induction false} SumWaitsTake(missions: map<Id, Mission>, rows: set<Id>, m: Id)
    requires rows <= missions.Keys && m in rows
    ensures SumWaits(missions, rows) == WaitOf(missions[m]) + SumWaits(missions, rows - {m})
    decreases rows
  {
    var m' :| m' in rows && SumWaits(missions, rows) == WaitOf(missions[m']) + SumWaits(missions, rows - {m'});
    if m' != m {
      SumWaitsTake(missions, rows - {m'}, m);
      SumWaitsTake(missions, rows - {m}, m');
      assert rows - {m'} - {m} == rows - {m} - {m'};
    }
  }

  /** SUM(actual_waiting_time) over the missions of a route; absent values do not contribute. */
  ghost function TotalWaiting(missions: map<Id, Mission>, route: Id): int {
    SumWaits(missions, MissionsOf(missions, route))
  }
}
