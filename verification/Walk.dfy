/** The walk of STARTNEXTDELIVERY over the positions of a route. */
module Walk {
  import opened Base
  import opened Domain
  import opened Tables
  import opened Store
  import opened CourierSpec
  import opened SolverOutput

  // ---------------------------------------------------------------- the walk as a list of missions

  function From(missions: map<Id, Mission>, route: Id, p: int): set<Id> {
    set m | m in missions && missions[m].routeId == route && missions[m].position.Some?
            && missions[m].position.value >= p
  }

  /** The missions met from position `p` on, one position after the other. */
  function Walk(missions: map<Id, Mission>, route: Id, p: int): seq<Id>
    decreases |From(missions, route, p)|
  {
    var next := NextByPosition(missions, route, p);
    if next.One? then
      Shrinks(missions, route, p);
      [next.id] + Walk(missions, route, p + 1)
    else []
  }

  lemma Shrinks(missions: map<Id, Mission>, route: Id, p: int)
    requires NextByPosition(missions, route, p).One?
    ensures |From(missions, route, p + 1)| < |From(missions, route, p)|
  {
    var m := NextByPosition(missions, route, p).id;
    SoleIs(AtPosition(missions, route, p), m);
    assert m in AtPosition(missions, route, p);
    assert From(missions, route, p + 1) <= From(missions, route, p) - {m};
    Smaller(From(missions, route, p + 1), From(missions, route, p) - {m});
  }

  /** Every mission of the route has its own position. */
  ghost predicate Placed(missions: map<Id, Mission>, route: Id) {
    && (forall m <- missions :: missions[m].routeId == route ==> missions[m].position.Some?)
    && (forall m <- missions, m' <- missions ::
          (missions[m].routeId == route && missions[m'].routeId == route
           && missions[m].position == missions[m'].position) ==> m == m')
  }

  lemma FoundAt(missions: map<Id, Mission>, route: Id, m: Id)
    requires Placed(missions, route) && m in missions && missions[m].routeId == route
    ensures missions[m].position.Some?
            && NextByPosition(missions, route, missions[m].position.value) == One(m)
  {
    var p := missions[m].position.value;
    assert m in AtPosition(missions, route, p);
    assert AtPosition(missions, route, p) == {m};
    SoleIs(AtPosition(missions, route, p), m);
  }

  /**
   The walk visits one mission after the other at consecutive positions, and stops at the first position
   that no mission holds.
   */
  lemma {:induction false} WalkIsConsecutive(missions: map<Id, Mission>, route: Id, p: int)
    requires Placed(missions, route)
    ensures var w := Walk(missions, route, p);
      && (forall k :: 0 <= k < |w| ==>
            w[k] in missions && missions[w[k]].routeId == route && missions[w[k]].position == Some(p + k))
      && AtPosition(missions, route, p + |w|) == {}
    decreases |From(missions, route, p)|
  {
    var next := NextByPosition(missions, route, p);
    if next.One? {
      SoleIs(AtPosition(missions, route, p), next.id);
      assert next.id in AtPosition(missions, route, p);
      Shrinks(missions, route, p);
      WalkIsConsecutive(missions, route, p + 1);
    } else if AtPosition(missions, route, p) != {} {
      var m :| m in AtPosition(missions, route, p);
      FoundAt(missions, route, m);
    }
  }

  lemma VisitsOnce(missions: map<Id, Mission>, route: Id, p: int, i: nat, j: nat)
    requires Placed(missions, route) && i < j < |Walk(missions, route, p)|
    ensures Walk(missions, route, p)[i] != Walk(missions, route, p)[j]
  {
    WalkIsConsecutive(missions, route, p);
  }

  /** No position is free between `p` and a position that is held. */
  ghost predicate NoGap(missions: map<Id, Mission>, route: Id, p: int) {
    forall m <- From(missions, route, p), q ::
      p <= q < missions[m].position.value ==> AtPosition(missions, route, q) != {}
  }

  /** The walk reaches every mission from `p` on exactly when no position on the way is free. */
  lemma WalkReachesAll(missions: map<Id, Mission>, route: Id, p: int)
    requires Placed(missions, route)
    ensures (forall m <- From(missions, route, p) :: m in Walk(missions, route, p)) <==> NoGap(missions, route, p)
  {
    var w := Walk(missions, route, p);
    WalkIsConsecutive(missions, route, p);
    if NoGap(missions, route, p) {
      forall m | m in From(missions, route, p) ensures m in w {
        var q := missions[m].position.value;
        assert m in AtPosition(missions, route, q);
        if q < p + |w| {
          FoundAt(missions, route, m);
          FoundAt(missions, route, w[q - p]);
        }
      }
    }
    if forall m <- From(missions, route, p) :: m in w {
      forall m, q | m in From(missions, route, p) && p <= q < missions[m].position.value
        ensures AtPosition(missions, route, q) != {}
      {
        assert m in From(missions, route, p);
        var k :| 0 <= k < |w| && w[k] == m;
        assert w[q - p] in AtPosition(missions, route, q);
      }
    }
  }

  // ---------------------------------------------------------------- the walk over a fresh plan

  /** The route's missions are exactly those the mapping made of `steps`. */
  ghost predicate Stored(missions: map<Id, Mission>, route: Id, steps: seq<Step>) {
    var ms := MapSteps(steps, route);
    && (forall p <- ms :: p.id in missions && missions[p.id] == StoredMission(p.row))
    && (forall m <- missions :: missions[m].routeId == route ==> exists p <- ms :: p.id == m)
  }

  /** No visit between two kept ones was dropped. */
  predicate Unbroken(flags: seq<bool>) {
    forall a, b, c :: 1 <= a < b < c <= |flags| && KeptAt(flags, a) && KeptAt(flags, c) ==> KeptAt(flags, b)
  }

  lemma PlannedMission(missions: map<Id, Mission>, route: Id, steps: seq<Step>, m: Id) returns (i: nat)
    requires Stored(missions, route, steps) && m in missions && missions[m].routeId == route
    ensures var ms := MapSteps(steps, route);
      && i < |ms| && ms[i].id == m && missions[m].position == Some(Position(ms[i]))
      && 1 <= Position(ms[i]) <= |VisitFlags(steps)|
  {
    PositionsFollowVisits(steps, route);
    var ms := MapSteps(steps, route);
    var p :| p in ms && p.id == m;
    i :| 0 <= i < |ms| && ms[i] == p;
    assert Fresh(p.row, route, |VisitFlags(steps)|);
  }

  lemma PlanIsPlaced(missions: map<Id, Mission>, route: Id, steps: seq<Step>)
    requires Stored(missions, route, steps)
    ensures Placed(missions, route)
  {
    var ms := MapSteps(steps, route);
    PositionsFollowVisits(steps, route);
    forall m | m in missions && missions[m].routeId == route ensures missions[m].position.Some? {
      var _ := PlannedMission(missions, route, steps, m);
    }
    forall m, m' | m in missions && m' in missions && missions[m].routeId == route && missions[m'].routeId == route
                   && missions[m].position == missions[m'].position
      ensures m == m'
    {
      var i := PlannedMission(missions, route, steps, m);
      var j := PlannedMission(missions, route, steps, m');
    }
  }

  lemma HeldWhereKept(missions: map<Id, Mission>, route: Id, steps: seq<Step>, q: nat)
    requires Stored(missions, route, steps) && 1 <= q <= |VisitFlags(steps)|
    ensures AtPosition(missions, route, q) != {} <==> KeptAt(VisitFlags(steps), q)
  {
    var ms, flags := MapSteps(steps, route), VisitFlags(steps);
    PositionsFollowVisits(steps, route);
    assert KeptAt(flags, q) <==> Taken(ms, q);
    if Taken(ms, q) {
      var p :| p in ms && Position(p) == q;
      assert Fresh(p.row, route, |flags|);
      assert p.id in AtPosition(missions, route, q);
    }
    if AtPosition(missions, route, q) != {} {
      var m :| m in AtPosition(missions, route, q);
      var i := PlannedMission(missions, route, steps, m);
      assert ms[i] in ms && Position(ms[i]) == q;
    }
  }

  lemma FirstIsLowest(missions: map<Id, Mission>, route: Id, steps: seq<Step>)
    requires Stored(missions, route, steps) && MapSteps(steps, route) != []
    ensures var first := Position(MapSteps(steps, route)[0]);
      && 1 <= first <= |VisitFlags(steps)| && KeptAt(VisitFlags(steps), first)
      && From(missions, route, first) == MissionsOf(missions, route)
      && forall q :: 1 <= q < first ==> !KeptAt(VisitFlags(steps), q)
  {
    var ms, flags := MapSteps(steps, route), VisitFlags(steps);
    PositionsFollowVisits(steps, route);
    var first := Position(ms[0]);
    assert ms[0] in ms && Fresh(ms[0].row, route, |flags|);
    assert Taken(ms, first);
    forall q | 1 <= q < first ensures !KeptAt(flags, q) {
      assert !Taken(ms, q);
    }
    forall m | m in MissionsOf(missions, route) ensures m in From(missions, route, first) {
      var i := PlannedMission(missions, route, steps, m);
    }
  }

  lemma GapsAreDroppedVisits(missions: map<Id, Mission>, route: Id, steps: seq<Step>)
    requires Stored(missions, route, steps) && MapSteps(steps, route) != []
    ensures NoGap(missions, route, Position(MapSteps(steps, route)[0])) <==> Unbroken(VisitFlags(steps))
  {
    var flags := VisitFlags(steps);
    var first := Position(MapSteps(steps, route)[0]);
    FirstIsLowest(missions, route, steps);
    if Unbroken(flags) {
      forall m, q | m in From(missions, route, first) && first <= q < missions[m].position.value
        ensures AtPosition(missions, route, q) != {}
      {
        var i := PlannedMission(missions, route, steps, m);
        var c := missions[m].position.value;
        assert m in AtPosition(missions, route, c);
        HeldWhereKept(missions, route, steps, c);
        HeldWhereKept(missions, route, steps, q);
        assert q == first || KeptAt(flags, q);
      }
    }
    if NoGap(missions, route, first) {
      forall a, b, c | 1 <= a < b < c <= |flags| && KeptAt(flags, a) && KeptAt(flags, c) ensures KeptAt(flags, b) {
        HeldWhereKept(missions, route, steps, c);
        HeldWhereKept(missions, route, steps, b);
        var m :| m in AtPosition(missions, route, c);
        assert m in From(missions, route, first);
      }
    }
  }

  /**
   On a fresh route the walk from its first mission reaches every mission exactly when no visit step
   between two kept ones was dropped.
   */
  lemma PlanWalkIsComplete(missions: map<Id, Mission>, route: Id, steps: seq<Step>)
    requires Stored(missions, route, steps) && MapSteps(steps, route) != []
    ensures var w := Walk(missions, route, Position(MapSteps(steps, route)[0]));
      (forall m <- MissionsOf(missions, route) :: m in w) <==> Unbroken(VisitFlags(steps))
  {
    hide Walk, From, Stored, Placed, NoGap, Unbroken, VisitFlags, MapSteps;
    PlanIsPlaced(missions, route, steps);
    FirstIsLowest(missions, route, steps);
    WalkReachesAll(missions, route, Position(MapSteps(steps, route)[0]));
    GapsAreDroppedVisits(missions, route, steps);
  }

  // ---------------------------------------------------------------- the requests that take it

  /** The request that leaves the mission the route is at. */
  function LeaveRequest(db: Db, rid: Id): Request {
    var current := if rid in db.routes then db.routes[rid].currentMission else None;
    Request(CourierStep.StartNextDelivery, rid,
            if current.Some? && current.value in db.missions then Some(db.missions[current.value].orderId) else None,
            None, None)
  }

  /** The tables after one STARTNEXTDELIVERY for the current mission at each instant. */
  ghost function AfterLeaveRequests(db: Db, dir: Directory, user: Id, rid: Id, clock: seq<Instant>): Result {
    if clock == [] then Done(db)
    else
      var last := |clock| - 1;
      var before := AfterLeaveRequests(db, dir, user, rid, clock[..last]);
      if before.Raised? then before else SetState(before.db, dir, user, LeaveRequest(before.db, rid), clock[last])
  }

  predicate Finished(missions: map<Id, Mission>, m: Id) {
    m in missions && missions[m].actualFinish.Some?
  }

  predicate CanLeave(m: Mission, clock: seq<Instant>) {
    MissionReadable(m)
    && (m.actualArrival.Some? ==> forall now <- clock :: m.actualArrival.value <= TimeOf(now))
  }

  /** The courier's route is at one of its missions, and no arrival is recorded for later than these instants. */
  ghost predicate AtMission(db: Db, dir: Directory, user: Id, rid: Id, clock: seq<Instant>) {
    && Linked(db) && Placed(db.missions, rid)
    && user in dir.courierOf && RouteAssigned(db, rid, dir.courierOf[user])
    && (forall m <- MissionsOf(db.missions, rid) :: CanLeave(db.missions[m], clock))
    && db.routes[rid].currentMission.Some? && db.routes[rid].currentMission.value in MissionsOf(db.missions, rid)
  }

  predicate SamePositions(missions: map<Id, Mission>, missions': map<Id, Mission>) {
    && missions'.Keys == missions.Keys
    && forall m <- missions :: missions'[m].routeId == missions[m].routeId
                               && missions'[m].position == missions[m].position
  }

  lemma {:induction false} SameWalk(missions: map<Id, Mission>, missions': map<Id, Mission>, route: Id, p: int)
    requires SamePositions(missions, missions')
    ensures Walk(missions', route, p) == Walk(missions, route, p)
    ensures NextByPosition(missions', route, p) == NextByPosition(missions, route, p)
    decreases |From(missions, route, p)|
  {
    assert AtPosition(missions', route, p) == AtPosition(missions, route, p);
    if NextByPosition(missions, route, p).One? {
      Shrinks(missions, route, p);
      SameWalk(missions, missions', route, p + 1);
    }
  }

  /** Where the route is after leaving mission `m`: at the next one of the walk, or still at `m` at its end. */
  function NextStop(missions: map<Id, Mission>, route: Id, m: Id): Id
    requires m in missions
  {
    var w := Walk(missions, route, PositionAfter(missions[m]));
    if w == [] then m else w[0]
  }

  /** What leaving mission `m` writes. */
  function Leaving(db: Db, rid: Id, courier: Id, m: Id, now: Instant): Db
    requires m in db.missions && rid in db.routes
  {
    var db1 := WithCourier(db, courier, LeaveRequest(db, rid));
    var route := db.routes[rid].(currentMission := Some(NextStop(db.missions, rid, m)));
    db1.(missions := db.missions[m := Completed(db.missions[m], TimeOf(now))],
         routes := db.routes[rid := route],
         couriers := WithStep(db1.couriers, courier, CourierStep.StartNextDelivery))
  }

  lemma NextStopFound(missions: map<Id, Mission>, rid: Id, m: Id, row: Mission)
    requires Placed(missions, rid) && m in MissionsOf(missions, rid)
    requires row.position == missions[m].position && row.routeId == rid
    ensures var next := NextByPosition(missions[m := row], rid, PositionAfter(row));
      if Walk(missions, rid, PositionAfter(row)) == [] then next.Missing?
      else next == One(NextStop(missions, rid, m)) && NextStop(missions, rid, m) in MissionsOf(missions, rid)
           && NextStop(missions, rid, m) != m
  {
    var p := PositionAfter(row);
    SameWalk(missions, missions[m := row], rid, p);
    WalkIsConsecutive(missions, rid, p);
    SoleIs(AtPosition(missions, rid, p), m);
  }

  lemma LeaveEffect(db: Db, dir: Directory, user: Id, rid: Id, clock: seq<Instant>, now: Instant)
    requires AtMission(db, dir, user, rid, clock) && now in clock
    ensures var m := db.routes[rid].currentMission.value;
      m in db.missions && SetState(db, dir, user, LeaveRequest(db, rid), now)
                          == Done(Leaving(db, rid, dir.courierOf[user], m, now))
  {
    hide SetState, Leaving, Walk;
    var m, courier := db.routes[rid].currentMission.value, dir.courierOf[user];
    var db1 := WithCourier(db, courier, LeaveRequest(db, rid));
    NextStopFound(db.missions, rid, m, Completed(db.missions[m], TimeOf(now)));
    LeaveHandled(db, dir, user, rid, m, now);
    LeaveProgress(db1, rid, m, NextStop(db.missions, rid, m), now);
    LeaveConcluded(db, rid, courier, m, now);
  }

  lemma LeaveConcluded(db: Db, rid: Id, courier: Id, m: Id, now: Instant)
    requires m in db.missions && RouteAssigned(db, rid, courier)
    ensures var db1 := WithCourier(db, courier, LeaveRequest(db, rid));
            var route := db.routes[rid].(currentMission := Some(NextStop(db.missions, rid, m)));
            var missions := db.missions[m := Completed(db.missions[m], TimeOf(now))];
      Conclude(Progress(db1.(missions := missions, routes := db.routes[rid := route]), route, true), rid, courier,
               CourierStep.StartNextDelivery)
      == Done(Leaving(db, rid, courier, m, now))
  {
    hide Completed, NextStop, WithStep;
    var route := db.routes[rid].(currentMission := Some(NextStop(db.missions, rid, m)));
    assert db.routes[rid := route][rid := route] == db.routes[rid := route];
  }

  lemma LeaveHandled(db: Db, dir: Directory, user: Id, rid: Id, m: Id, now: Instant)
    requires Linked(db) && m in MissionsOf(db.missions, rid) && MissionReadable(db.missions[m])
    requires user in dir.courierOf && RouteAssigned(db, rid, dir.courierOf[user])
    requires db.routes[rid].currentMission == Some(m)
    ensures var rq := LeaveRequest(db, rid);
            var db1 := WithCourier(db, dir.courierOf[user], rq);
      SetState(db, dir, user, rq, now)
      == Conclude(OnStartNext(db1, rid, db.routes[rid], m, now), rid, dir.courierOf[user],
                  CourierStep.StartNextDelivery)
  {
    hide OnStartNext, Conclude, MissionOn;
    MissionOnIs(db, m);
  }

  lemma LeaveProgress(db: Db, rid: Id, m: Id, next: Id, now: Instant)
    requires m in db.missions && rid in db.routes && next in db.missions
    requires MissionReadable(db.missions[m]) && MissionReadable(db.missions[next]) && RouteReadable(db.routes[rid])
    requires db.missions[m].actualArrival.Some? ==> db.missions[m].actualArrival.value <= TimeOf(now)
    requires db.routes[rid].currentMission == Some(m)
    requires var row := Completed(db.missions[m], TimeOf(now));
             var found := NextByPosition(db.missions[m := row], rid, PositionAfter(row));
             if next == m then found.Missing? else found == One(next)
    ensures var route := db.routes[rid].(currentMission := Some(next));
      OnStartNext(db, rid, db.routes[rid], m, now)
      == Progress(db.(missions := db.missions[m := Completed(db.missions[m], TimeOf(now))],
                      routes := db.routes[rid := route]), route, true)
  {
    assert db.routes[rid := db.routes[rid]] == db.routes;
  }

  lemma CompletedCanLeave(m: Mission, clock: seq<Instant>, now: Instant)
    requires CanLeave(m, clock) && now in clock
    ensures CanLeave(Completed(m, TimeOf(now)), clock)
  {
  }

  lemma LeavingKeepsLinks(db: Db, rid: Id, courier: Id, m: Id, now: Instant)
    requires m in db.missions && rid in db.routes
    ensures var db' := Leaving(db, rid, courier, m, now);
      && SamePositions(db.missions, db'.missions)
      && (Linked(db) ==> Linked(db'))
      && (Placed(db.missions, rid) ==> Placed(db'.missions, rid))
      && MissionsOf(db'.missions, rid) == MissionsOf(db.missions, rid)
  {
    hide NextStop;
  }

  lemma LeavingKeepsCourse(db: Db, dir: Directory, user: Id, rid: Id, clock: seq<Instant>, now: Instant)
    requires AtMission(db, dir, user, rid, clock) && now in clock
    ensures var m := db.routes[rid].currentMission.value;
      && m in db.missions
      && var db' := Leaving(db, rid, dir.courierOf[user], m, now);
      && SamePositions(db.missions, db'.missions)
      && (forall i :: Finished(db'.missions, i) <==> Finished(db.missions, i) || i == m)
      && AtMission(db', dir, user, rid, clock) && db'.routes[rid].currentMission == Some(NextStop(db.missions, rid, m))
  {
    hide Linked, Placed, CanLeave, WithCourier, SamePositions, NextByPosition, Walk;
    var m := db.routes[rid].currentMission.value;
    NextStopFound(db.missions, rid, m, Completed(db.missions[m], TimeOf(now)));
    LeavingKeepsLinks(db, rid, dir.courierOf[user], m, now);
    CompletedCanLeave(db.missions[m], clock, now);
  }

  function Least(a: nat, b: nat): nat { if a < b then a else b }

  /** The walk from the mission the route is at. */
  ghost function WalkAhead(db: Db, rid: Id): seq<Id> {
    if rid in db.routes && db.routes[rid].currentMission.Some? && db.routes[rid].currentMission.value in db.missions
       && db.missions[db.routes[rid].currentMission.value].position.Some?
    then Walk(db.missions, rid, db.missions[db.routes[rid].currentMission.value].position.value)
    else []
  }

  /**
   `k` calls on from `start`: at the `k`-th mission of the walk or at its last, with exactly the missions left
   so far finished besides those that were before.
   */
  ghost predicate Followed(start: map<Id, Mission>, db: Db, dir: Directory, user: Id, rid: Id, clock: seq<Instant>,
                           w: seq<Id>, k: nat)
  {
    && |w| > 0 && AtMission(db, dir, user, rid, clock)
    && WalkAhead(db, rid) == w[Least(k, |w| - 1)..]
    && db.routes[rid].currentMission == Some(w[Least(k, |w| - 1)])
    && SamePositions(start, db.missions)
    && (forall m :: Finished(db.missions, m) <==> Finished(start, m) || m in w[..Least(k, |w|)])
  }

  /**
   Repeated STARTNEXTDELIVERY follows the walk from the current mission: the `k`-th call leaves the `k`-th
   mission of the walk with a finish time and moves on to the next one, and once the last is reached every
   further call succeeds and stays there.
   */
  lemma {:induction false} LeavingFollowsTheWalk(db: Db, dir: Directory, user: Id, rid: Id, clock: seq<Instant>, k: nat)
    requires AtMission(db, dir, user, rid, clock) && k <= |clock|
    ensures var r, w := AfterLeaveRequests(db, dir, user, rid, clock[..k]), WalkAhead(db, rid);
      r.Done? && Followed(db.missions, r.db, dir, user, rid, clock, w, k)
  {
    hide AtMission, Followed, WalkAhead, SetState;
    if k == 0 {
      assert clock[..0] == [];
      FollowedFromStart(db, dir, user, rid, clock);
    } else {
      assert clock[..k][..k - 1] == clock[..k - 1];
      LeavingFollowsTheWalk(db, dir, user, rid, clock, k - 1);
      OneMoreLeft(db.missions, AfterLeaveRequests(db, dir, user, rid, clock[..k - 1]).db, dir, user, rid, clock,
                  WalkAhead(db, rid), k - 1);
    }
  }

  lemma FollowedFromStart(db: Db, dir: Directory, user: Id, rid: Id, clock: seq<Instant>)
    requires AtMission(db, dir, user, rid, clock)
    ensures Followed(db.missions, db, dir, user, rid, clock, WalkAhead(db, rid), 0)
  {
    hide AtMission, Walk, WalkAhead, Finished, SamePositions;
    StartsAtCurrent(db, dir, user, rid, clock);
    var w := WalkAhead(db, rid);
    assert w[0..] == w && w[..0] == [];
    assert SamePositions(db.missions, db.missions) by { SamePositionsReflexive(db.missions); }
  }

  lemma SamePositionsReflexive(missions: map<Id, Mission>)
    ensures SamePositions(missions, missions)
  {
  }

  lemma StartsAtCurrent(db: Db, dir: Directory, user: Id, rid: Id, clock: seq<Instant>)
    requires AtMission(db, dir, user, rid, clock)
    ensures |WalkAhead(db, rid)| > 0 && Some(WalkAhead(db, rid)[0]) == db.routes[rid].currentMission
    ensures var m := db.routes[rid].currentMission.value;
      m in db.missions && WalkAhead(db, rid)[1..] == Walk(db.missions, rid, PositionAfter(db.missions[m]))
  {
    FoundAt(db.missions, rid, db.routes[rid].currentMission.value);
  }

  /** Where the next call leads. */
  lemma OneMoreLeft(start: map<Id, Mission>, db: Db, dir: Directory, user: Id, rid: Id, clock: seq<Instant>,
                    w: seq<Id>, k: nat)
    requires Followed(start, db, dir, user, rid, clock, w, k) && k < |clock|
    ensures var r := SetState(db, dir, user, LeaveRequest(db, rid), clock[k]);
      r.Done? && Followed(start, r.db, dir, user, rid, clock, w, k + 1)
  {
    var m := db.routes[rid].currentMission.value;
    LeaveEffect(db, dir, user, rid, clock, clock[k]);
    LeavingKeepsCourse(db, dir, user, rid, clock, clock[k]);
    StartsAtCurrent(db, dir, user, rid, clock);
    var db' := Leaving(db, rid, dir.courierOf[user], m, clock[k]);
    AheadOf(db, db', dir, user, rid, clock);
    FollowedOn(start, db, db', dir, user, rid, clock, w, k);
  }

  lemma FollowedOn(start: map<Id, Mission>, db: Db, db': Db, dir: Directory, user: Id, rid: Id,
                   clock: seq<Instant>, w: seq<Id>, k: nat)
    requires Followed(start, db, dir, user, rid, clock, w, k) && AtMission(db', dir, user, rid, clock)
    requires WalkAhead(db', rid) == if |WalkAhead(db, rid)| > 1 then WalkAhead(db, rid)[1..] else WalkAhead(db, rid)
    requires SamePositions(db.missions, db'.missions)
    requires forall m :: Finished(db'.missions, m) <==> Finished(db.missions, m)
                                                        || m == db.routes[rid].currentMission.value
    ensures Followed(start, db', dir, user, rid, clock, w, k + 1)
  {
    hide AtMission, Walk, WalkAhead, Finished, Least, SamePositions;
    StartsAtCurrent(db', dir, user, rid, clock);
    WalkMovesOn(w, k);
    SamePositionsTwice(start, db.missions, db'.missions);
  }

  lemma SamePositionsTwice(a: map<Id, Mission>, b: map<Id, Mission>, c: map<Id, Mission>)
    requires SamePositions(a, b) && SamePositions(b, c)
    ensures SamePositions(a, c)
  {
  }

  lemma WalkMovesOn(w: seq<Id>, k: nat)
    requires |w| > 0
    ensures 0 <= Least(k, |w| - 1) < |w| && 0 <= Least(k + 1, |w| - 1) < |w|
    ensures Least(k, |w|) <= |w| && Least(k + 1, |w|) <= |w|
    ensures var ahead := w[Least(k, |w| - 1)..];
      w[Least(k + 1, |w| - 1)..] == if |ahead| > 1 then ahead[1..] else ahead
    ensures forall m :: m in w[..Least(k + 1, |w|)] <==> m in w[..Least(k, |w|)] || m == w[Least(k, |w| - 1)]
  {
    if k < |w| {
      assert w[..k + 1] == w[..k] + [w[k]];
    }
  }

  /** After moving on, the walk ahead is one mission shorter; at its end it stays as it was. */
  lemma AheadOf(db: Db, db': Db, dir: Directory, user: Id, rid: Id, clock: seq<Instant>)
    requires AtMission(db, dir, user, rid, clock) && AtMission(db', dir, user, rid, clock)
    requires SamePositions(db.missions, db'.missions)
    requires db.routes[rid].currentMission.value in db.missions
    requires db'.routes[rid].currentMission == Some(NextStop(db.missions, rid, db.routes[rid].currentMission.value))
    ensures var w := WalkAhead(db, rid);
      |w| > 0 && WalkAhead(db', rid) == if |w| > 1 then w[1..] else w
  {
    hide Placed, Linked, CanLeave, Walk, MissionsOf, AtPosition;
    var m := db.routes[rid].currentMission.value;
    StartsAtCurrent(db, dir, user, rid, clock);
    var p := PositionAfter(db.missions[m]);
    WalkIsConsecutive(db.missions, rid, p);
    SameWalk(db.missions, db'.missions, rid, p - 1);
    SameWalk(db.missions, db'.missions, rid, p);
  }

  /**
   A freshly stored route at its first mission: once there were at least as many STARTNEXTDELIVERY calls as
   the walk is long, every mission of the route is finished exactly when no visit step between two kept ones
   was dropped.
   */
  lemma FreshRouteIsFinished(db: Db, dir: Directory, user: Id, rid: Id, steps: seq<Step>, clock: seq<Instant>)
    requires Stored(db.missions, rid, steps) && MapSteps(steps, rid) != []
    requires AtMission(db, dir, user, rid, clock)
    requires db.routes[rid].currentMission == Some(MapSteps(steps, rid)[0].id)
    requires |clock| >= |WalkAhead(db, rid)|
    ensures var r := AfterLeaveRequests(db, dir, user, rid, clock);
      && r.Done?
      && ((forall m <- MissionsOf(r.db.missions, rid) :: Finished(r.db.missions, m)) <==> Unbroken(VisitFlags(steps)))
  {
    hide Walk, Unbroken, MapSteps, Stored, AfterLeaveRequests, Followed;
    FirstPosition(db.missions, rid, steps);
    PlanWalkIsComplete(db.missions, rid, steps);
    LeavingFollowsTheWalk(db, dir, user, rid, clock, |clock|);
    assert clock[..|clock|] == clock;
    NothingFinished(db.missions, rid, steps);
    WholeWalkFinished(db.missions, AfterLeaveRequests(db, dir, user, rid, clock).db, dir, user, rid, clock,
                      WalkAhead(db, rid));
  }

  lemma FirstPosition(missions: map<Id, Mission>, rid: Id, steps: seq<Step>)
    requires Stored(missions, rid, steps) && MapSteps(steps, rid) != []
    ensures var first := MapSteps(steps, rid)[0];
      first.id in missions && missions[first.id].position == Some(Position(first))
  {
    PositionsFollowVisits(steps, rid);
    assert Fresh(MapSteps(steps, rid)[0].row, rid, |VisitFlags(steps)|);
  }

  lemma WholeWalkFinished(start: map<Id, Mission>, db: Db, dir: Directory, user: Id, rid: Id, clock: seq<Instant>,
                          w: seq<Id>)
    requires Followed(start, db, dir, user, rid, clock, w, |clock|) && |clock| >= |w|
    requires forall m <- MissionsOf(start, rid) :: !Finished(start, m)
    ensures MissionsOf(db.missions, rid) == MissionsOf(start, rid)
    ensures forall m <- MissionsOf(start, rid) :: Finished(db.missions, m) <==> m in w
  {
    hide AtMission, WalkAhead, Finished;
    assert w[..|w|] == w;
  }

  lemma NothingFinished(missions: map<Id, Mission>, rid: Id, steps: seq<Step>)
    requires Stored(missions, rid, steps)
    ensures forall m <- MissionsOf(missions, rid) :: !Finished(missions, m)
  {
    PositionsFollowVisits(steps, rid);
    forall m | m in MissionsOf(missions, rid) ensures !Finished(missions, m) {
      var p :| p in MapSteps(steps, rid) && p.id == m;
    }
  }
}
