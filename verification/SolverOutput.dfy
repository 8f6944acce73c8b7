/** Mapping a solver response to a route and its missions. */
module SolverOutput {
  import opened Base
  import opened Domain

  /**
   One step of a solver route. A visit names its order unless the id is missing or malformed, and carries
   the values of its mission; `mappable` is false when anything else in the step cannot be converted.
   */
  datatype Step =
    | Depot
    | Visit(order: Option<Id>, missionId: Id, arrival: Time, duration: int, distance: int, service: int,
            waiting: int, mappable: bool)

  datatype SolverRoute = SolverRoute(steps: seq<Step>, totalDuration: int, totalDistance: int)

  datatype Response = Response(routes: seq<SolverRoute>, unassigned: seq<Id>)

  /** The values the response is completed with; `routeId` is freshly drawn. */
  datatype Metadata = Metadata(routeId: Id, courier: Id, terminal: Id, shift: Id, start: Time, finish: Time)

  datatype Planned = Planned(id: Id, row: Mission)

  /** A visit becomes a mission unless the step or the mission's own validation rejects it. */
  predicate Kept(s: Step) {
    s.Visit? && s.order.Some? && s.mappable
    && s.duration >= 0 && s.distance >= 0 && s.service >= 0 && s.waiting >= 0
  }

  function MissionOf(s: Step, position: nat, routeId: Id): Planned
    requires Kept(s)
  {
    Planned(s.missionId,
            Mission(routeId, s.order.value, Some(s.arrival), Some(s.duration), Some(s.distance), Some(s.service),
                    None, None, None, None, None, None,
                    Some(Known(MissionStatus.Scheduled)), Some(FalseText), Some(position), Some(s.waiting),
                    None, None, None, None, None))
  }

  /** Which visit steps were kept, in driving order. */
  function VisitFlags(steps: seq<Step>): seq<bool> {
    if steps == [] then []
    else VisitFlags(steps[..|steps| - 1])
         + if steps[|steps| - 1].Visit? then [Kept(steps[|steps| - 1])] else []
  }

  /** The missions of the kept visits; a dropped visit still uses up its position. */
  function MapSteps(steps: seq<Step>, routeId: Id): seq<Planned> {
    if steps == [] then []
    else MapSteps(steps[..|steps| - 1], routeId)
         + if Kept(steps[|steps| - 1]) then [MissionOf(steps[|steps| - 1], |VisitFlags(steps)|, routeId)] else []
  }

  method MapVisitSteps(steps: seq<Step>, routeId: Id) returns (missions: seq<Planned>)
    ensures missions == MapSteps(steps, routeId)
  {
    missions := [];
    var stepOrder := 0;
    for i := 0 to |steps|
      invariant stepOrder == |VisitFlags(steps[..i])|
      invariant missions == MapSteps(steps[..i], routeId)
    {
      var step := steps[i];
      assert steps[..i + 1][..|steps[..i + 1]| - 1] == steps[..i];
      if !step.Visit? {
        continue;
      }
      stepOrder := stepOrder + 1;
      if Kept(step) {
        missions := missions + [MissionOf(step, stepOrder, routeId)];
      }
    }
    assert steps[..|steps|] == steps;
  }

  /**
   Positions strictly increase and lie between 1 and the number of visit steps, and a position is used
   exactly when its visit was kept. Every mission is new, readable and belongs to the route.
   */
  lemma {:induction false} PositionsFollowVisits(steps: seq<Step>, routeId: Id)
    ensures var ms, flags := MapSteps(steps, routeId), VisitFlags(steps);
      && (forall i <- ms :: Fresh(i.row, routeId, |flags|))
      && (forall i, j :: 0 <= i < j < |ms| ==> Position(ms[i]) < Position(ms[j]))
      && (forall p :: 1 <= p <= |flags| ==> (KeptAt(flags, p) <==> Taken(ms, p)))
  {
    if steps == [] {
    } else {
      var init := steps[..|steps| - 1];
      PositionsFollowVisits(init, routeId);
      var before, ms, flags := MapSteps(init, routeId), MapSteps(steps, routeId), VisitFlags(steps);
      var s := steps[|steps| - 1];
      forall p | 1 <= p <= |flags| ensures KeptAt(flags, p) <==> Taken(ms, p) {
        if p <= |VisitFlags(init)| {
          assert KeptAt(flags, p) == KeptAt(VisitFlags(init), p);
          if KeptAt(flags, p) {
            assert Taken(before, p);
            var m :| m in before && Position(m) == p;
            assert m in ms;
          } else {
            assert !Taken(before, p);
          }
        } else if Kept(s) {
          assert MissionOf(s, |flags|, routeId) in ms;
        }
      }
    }
  }

  /** Whether the `p`-th visit (from 1) was kept. */
  predicate KeptAt(flags: seq<bool>, p: nat)
    requires 1 <= p <= |flags|
  {
    flags[p - 1]
  }

  predicate Taken(missions: seq<Planned>, p: int) {
    exists m <- missions :: Position(m) == p
  }

  function Position(m: Planned): int {
    if m.row.position.Some? then m.row.position.value else 0
  }

  /** A mission as the mapping makes it: readable, on the route, not yet driven. */
  predicate Fresh(m: Mission, routeId: Id, last: nat) {
    && MissionReadable(m) && m.routeId == routeId
    && m.position.Some? && 1 <= m.position.value <= last
    && m.actualArrival.None? && m.actualFinish.None? && m.actualWaiting.None?
    && m.status == Some(Known(MissionStatus.Scheduled))
  }

  /** The route entity, or None when a value fails its validation. */
  function RouteOf(sr: SolverRoute, md: Metadata, missions: nat): Option<Route> {
    var r := Route(md.terminal, md.shift, md.courier, md.start, md.finish, None, None, RouteStatus.Scheduled, None,
                   missions, Some(sr.totalDuration / 60), Some(sr.totalDistance), None, None, None, 0);
    if RouteReadable(r) then Some(r) else None
  }
}
