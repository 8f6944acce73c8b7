/**
 The rows of the database, the validation an entity runs when a row is read, and the two
 write-back disciplines: a mission update skips absent fields, an order update overwrites.
 */
module Domain {
  import opened Base

  // ---------------------------------------------------------------- routes

  datatype RouteStatus = Scheduled | Loading | Ongoing | ReturnToHub | Finished | Cancelled

  datatype Route = Route(
    terminalId: Id,
    shiftId: Id,
    courierId: Id,
    start: Time,
    finish: Time,
    actualStart: Option<Time>,
    actualFinish: Option<Time>,
    status: RouteStatus,
    currentMission: Option<Id>,
    numberOfMissions: int,
    duration: Option<int>,
    distance: Option<int>,
    totalActualWaiting: Option<int>,
    loadingStart: Option<Instant>,
    arrivedAtHub: Option<Instant>,
    createdAt: Instant
  )

  predicate NonNegative(x: Option<int>) { x.Some? ==> x.value >= 0 }

  /** What Route.__post_init__ accepts; a row that fails it cannot be read any more. */
  predicate RouteReadable(r: Route) {
    && r.start < r.finish
    && (r.actualStart.Some? && r.actualFinish.Some? ==> r.actualStart.value < r.actualFinish.value)
    && r.numberOfMissions >= 0
    && NonNegative(r.duration)
    && NonNegative(r.distance)
  }

  /** The five reasons for which a route is rejected. */
  lemma RejectedRoute(r: Route)
    ensures !RouteReadable(r)
       <==> || r.start >= r.finish
            || (r.actualStart.Some? && r.actualFinish.Some? && r.actualStart.value >= r.actualFinish.value)
            || r.numberOfMissions < 0
            || (r.duration.Some? && r.duration.value < 0)
            || (r.distance.Some? && r.distance.value < 0)
  {
  }

  /** RouteRepository.update copies every column except the owner columns and the creation time. */
  function OverwriteRoute(row: Route, entity: Route): Route {
    entity.(terminalId := row.terminalId, shiftId := row.shiftId, courierId := row.courierId,
            createdAt := row.createdAt)
  }

  /** A route that still blocks or joins the planning of its terminal. */
  predicate Live(r: Route) {
    r.status != RouteStatus.Finished && r.status != RouteStatus.Cancelled
  }

  // ---------------------------------------------------------------- missions

  datatype MissionStatus =
    | Scheduled | Ongoing | Delivered | DeliveredWithDelay
    | UnreachableAddress | UnreachableCustomer | UnreachableDispatch | Cancelled

  datatype UndeliverType = Address | Customer | Dispatch

  /** The text of a status column: the value of a MissionStatusType, or of an UndeliveredMissionStatus. */
  datatype StatusText = Known(status: MissionStatus) | Reason(reason: UndeliverType)

  function MissionStatusValue(s: MissionStatus): string {
    match s
    case Scheduled => "scheduled"
    case Ongoing => "ongoing"
    case Delivered => "delivered"
    case DeliveredWithDelay => "delivered_with_delay"
    case UnreachableAddress => "undelivered_unreachable_address"
    case UnreachableCustomer => "undelivered_unreachable_customer"
    case UnreachableDispatch => "undelivered_unreachable_dispatch"
    case Cancelled => "cancelled"
  }

  function UndeliverValue(u: UndeliverType): string {
    match u
    case Address => "Undelivered_Unreachable_Address"
    case Customer => "Undelivered_Unreachable_Customer"
    case Dispatch => "Undelivered_Unreachable_Dispatch"
  }

  function Text(t: StatusText): string {
    match t
    case Known(s) => MissionStatusValue(s)
    case Reason(u) => UndeliverValue(u)
  }

  /** MissionStatusType(text): the member with that value, or a ValueError read as None. */
  ghost function DecodeStatus(text: string): Option<StatusText> {
    if exists s: MissionStatus :: MissionStatusValue(s) == text then
      var s: MissionStatus :| MissionStatusValue(s) == text;
      Some(Known(s))
    else
      None
  }

  /** The enum's own values decode to themselves; the three reasons a courier can report never decode. */
  lemma StatusTextDecodes(t: StatusText)
    ensures DecodeStatus(Text(t)) == if t.Known? then Some(t) else None
  {
    match t
    case Known(s) =>
      assert MissionStatusValue(s) == Text(t);
      forall s': MissionStatus | MissionStatusValue(s') == MissionStatusValue(s) ensures s' == s {
        ValuesDiffer(s, s');
      }
    case Reason(u) =>
      forall s: MissionStatus ensures MissionStatusValue(s) != UndeliverValue(u) {
        assert UndeliverValue(u)[0] == 'U';
        assert MissionStatusValue(s)[0] != 'U';
      }
  }

  lemma ValuesDiffer(s: MissionStatus, s': MissionStatus)
    requires MissionStatusValue(s) == MissionStatusValue(s')
    ensures s == s'
  {
    var a, b := MissionStatusValue(s), MissionStatusValue(s');
    assert |a| == |b|;
    assert a[0] == b[0];
    assert |a| > 22 ==> a[24] == b[24];
  }

  datatype PostponedType = ByAddress | ByCustomer | ByDispatch

  /** The text of a postponed column; the entity value it comes from is in one-to-one correspondence. */
  datatype PostponedText = Kind(kind: PostponedType) | Reported(reason: UndeliverType) | FalseText

  datatype Mission = Mission(
    routeId: Id,
    orderId: Id,
    arrival: Option<Time>,
    cumulativeDuration: Option<int>,
    cumulativeDistance: Option<int>,
    serviceTime: Option<int>,
    actualArrival: Option<Time>,
    actualCumulativeDuration: Option<int>,
    actualCumulativeDistance: Option<int>,
    actualServiceTime: Option<int>,
    actualStart: Option<Time>,
    actualFinish: Option<Time>,
    status: Option<StatusText>,
    postponed: Option<PostponedText>,
    position: Option<int>,
    waiting: Option<int>,
    actualWaiting: Option<int>,
    loadingScan: Option<Instant>,
    deliveryScan: Option<Instant>,
    deliveryBarcode: Option<string>,
    comment: Option<string>
  )

  /** What Mission.__post_init__ accepts. */
  predicate MissionReadable(m: Mission) {
    && NonNegative(m.cumulativeDuration)
    && NonNegative(m.cumulativeDistance)
    && NonNegative(m.serviceTime)
    && NonNegative(m.actualCumulativeDuration)
    && NonNegative(m.actualCumulativeDistance)
    && NonNegative(m.actualServiceTime)
    && NonNegative(m.position)
    && NonNegative(m.waiting)
    && NonNegative(m.actualWaiting)
  }

  /** A mission is rejected for one of nine negative figures and for nothing else. */
  lemma RejectedMission(m: Mission)
    ensures !MissionReadable(m)
       <==> exists x <- [m.cumulativeDuration, m.cumulativeDistance, m.serviceTime, m.actualCumulativeDuration,
                         m.actualCumulativeDistance, m.actualServiceTime, m.position, m.waiting, m.actualWaiting] ::
              x.Some? && x.value < 0
  {
    var figures := [m.cumulativeDuration, m.cumulativeDistance, m.serviceTime, m.actualCumulativeDuration,
                    m.actualCumulativeDistance, m.actualServiceTime, m.position, m.waiting, m.actualWaiting];
    assert figures[0] in figures && figures[1] in figures && figures[2] in figures && figures[3] in figures;
    assert figures[4] in figures && figures[5] in figures && figures[6] in figures && figures[7] in figures;
    assert figures[8] in figures;
  }

  /** MissionRepository._orm_to_entity: a text no enum member has is read as None. */
  function MissionEntity(row: Mission): Mission {
    row.(status := if row.status.Some? && row.status.value.Known? then row.status else None,
         postponed := if row.postponed.Some? && row.postponed.value.Kind? then row.postponed else None)
  }

  /** MissionRepository.update: every field the entity gives, and the stored one where it gives None. */
  function MergeMission(row: Mission, e: Mission): Mission {
    Mission(
      row.routeId,
      row.orderId,
      Given(e.arrival, row.arrival),
      Given(e.cumulativeDuration, row.cumulativeDuration),
      Given(e.cumulativeDistance, row.cumulativeDistance),
      Given(e.serviceTime, row.serviceTime),
      Given(e.actualArrival, row.actualArrival),
      Given(e.actualCumulativeDuration, row.actualCumulativeDuration),
      Given(e.actualCumulativeDistance, row.actualCumulativeDistance),
      Given(e.actualServiceTime, row.actualServiceTime),
      Given(e.actualStart, row.actualStart),
      Given(e.actualFinish, row.actualFinish),
      Given(e.status, row.status),
      Given(e.postponed, row.postponed),
      Given(e.position, row.position),
      Given(e.waiting, row.waiting),
      Given(e.actualWaiting, row.actualWaiting),
      Given(e.loadingScan, row.loadingScan),
      Given(e.deliveryScan, row.deliveryScan),
      Given(e.deliveryBarcode, row.deliveryBarcode),
      Given(e.comment, row.comment)
    )
  }

  function MergeAll(row: Mission, updates: seq<Mission>): Mission {
    if updates == [] then row
    else MergeMission(MergeAll(row, updates[..|updates| - 1]), updates[|updates| - 1])
  }

  /** The last value a series of updates gives for one field, or the stored one if none does. */
  function LastGiven<T>(updates: seq<Mission>, field: Mission -> Option<T>, stored: Option<T>): Option<T> {
    if updates == [] then stored
    else if field(updates[|updates| - 1]).Some? then field(updates[|updates| - 1])
    else LastGiven(updates[..|updates| - 1], field, stored)
  }

  /**
   Reading a row and writing it back in the middle of any series of updates changes nothing, even
   where a status or postponed text could not be decoded.
   */
  lemma WriteBackIsInvisible(row: Mission, before: seq<Mission>, after: seq<Mission>)
    ensures MergeAll(row, before + [MissionEntity(MergeAll(row, before))] + after) == MergeAll(row, before + after)
  {
    var back := [MissionEntity(MergeAll(row, before))];
    if after == [] {
      assert before + back + after == before + back;
      assert (before + back)[..|before + back| - 1] == before;
      assert before + after == before;
    } else {
      var last := |after| - 1;
      WriteBackIsInvisible(row, before, after[..last]);
      assert (before + back + after)[..|before + back + after| - 1] == before + back + after[..last];
      assert (before + after)[..|before + after| - 1] == before + after[..last];
    }
  }

  /** Writing back a row with a new status changes its status alone. */
  lemma StatusWriteBack(row: Mission, status: StatusText)
    ensures MergeMission(row, MissionEntity(row).(status := Some(status))) == row.(status := Some(status))
  {
  }

  /** After any series of updates a written field holds the last value given for it; the links never change. */
  lemma {:induction false} UpdatesKeepLastGiven(row: Mission, updates: seq<Mission>)
    ensures var r := MergeAll(row, updates);
      && r.routeId == row.routeId && r.orderId == row.orderId
      && r.arrival == LastGiven(updates, (m: Mission) => m.arrival, row.arrival)
      && r.cumulativeDuration == LastGiven(updates, (m: Mission) => m.cumulativeDuration, row.cumulativeDuration)
      && r.cumulativeDistance == LastGiven(updates, (m: Mission) => m.cumulativeDistance, row.cumulativeDistance)
      && r.serviceTime == LastGiven(updates, (m: Mission) => m.serviceTime, row.serviceTime)
      && r.actualArrival == LastGiven(updates, (m: Mission) => m.actualArrival, row.actualArrival)
      && r.actualCumulativeDuration
         == LastGiven(updates, (m: Mission) => m.actualCumulativeDuration, row.actualCumulativeDuration)
      && r.actualCumulativeDistance
         == LastGiven(updates, (m: Mission) => m.actualCumulativeDistance, row.actualCumulativeDistance)
      && r.actualServiceTime == LastGiven(updates, (m: Mission) => m.actualServiceTime, row.actualServiceTime)
      && r.actualStart == LastGiven(updates, (m: Mission) => m.actualStart, row.actualStart)
      && r.actualFinish == LastGiven(updates, (m: Mission) => m.actualFinish, row.actualFinish)
      && r.status == LastGiven(updates, (m: Mission) => m.status, row.status)
      && r.postponed == LastGiven(updates, (m: Mission) => m.postponed, row.postponed)
      && r.position == LastGiven(updates, (m: Mission) => m.position, row.position)
      && r.waiting == LastGiven(updates, (m: Mission) => m.waiting, row.waiting)
      && r.actualWaiting == LastGiven(updates, (m: Mission) => m.actualWaiting, row.actualWaiting)
      && r.loadingScan == LastGiven(updates, (m: Mission) => m.loadingScan, row.loadingScan)
      && r.deliveryScan == LastGiven(updates, (m: Mission) => m.deliveryScan, row.deliveryScan)
      && r.deliveryBarcode == LastGiven(updates, (m: Mission) => m.deliveryBarcode, row.deliveryBarcode)
      && r.comment == LastGiven(updates, (m: Mission) => m.comment, row.comment)
  {
    if updates == [] {
    } else {
      UpdatesKeepLastGiven(row, updates[..|updates| - 1]);
    }
  }

  // ---------------------------------------------------------------- orders

  datatype OrderStatus = Registered | Scheduled | Delivered | Cancelled | Postponed | Unassigned

  datatype Order = Order(
    terminalId: Id,
    shiftId: Id,
    courierId: Id,
    barcode: string,
    status: OrderStatus,
    earliest: Option<Time>,
    latest: Option<Time>,
    expectedDelivery: Option<string>,
    actualDelivery: Option<Instant>,
    movedAs: Option<Id>
  )

  /** The row has a delivery window: both columns are set and in order. */
  predicate HasWindow(o: Order) {
    o.earliest.Some? && o.latest.Some? && o.earliest.value < o.latest.value
  }

  /** OrderRepository._orm_to_entity: an incomplete or inverted window is read as no window. */
  function OrderEntity(row: Order): Order {
    if HasWindow(row) then row else row.(earliest := None, latest := None)
  }

  /** OrderRepository.update copies every column except the owner columns and moved_as. */
  function OverwriteOrder(row: Order, entity: Order): Order {
    entity.(terminalId := row.terminalId, shiftId := row.shiftId, courierId := row.courierId,
            movedAs := row.movedAs)
  }

  /** The row after its status alone was changed through a read and a write-back. */
  function Restatus(row: Order, status: OrderStatus): Order {
    OverwriteOrder(row, OrderEntity(row).(status := status))
  }

  /** Only the status differs, except that a window that is incomplete or not in order is gone. */
  predicate RestatedTo(o: Order, o': Order, status: OrderStatus) {
    o' == if o.earliest.Some? && o.latest.Some? && o.earliest.value < o.latest.value then o.(status := status)
          else o.(status := status, earliest := None, latest := None)
  }

  lemma RestatusColumns(o: Order, status: OrderStatus)
    ensures RestatedTo(o, Restatus(o, status), status)
  {
  }

  // ---------------------------------------------------------------- couriers and usage

  datatype CourierStep =
    | Idle | ArrivedAtHub | StartLoading | StartRoute | ArrivedAtDelivery | Delivered | Undelivered
    | StartNextDelivery | ReturnToHub | FinishRoute

  datatype CourierState = CourierState(delivered: seq<Id>, state: CourierStep)

  datatype Usage = Usage(customer: Id, count: int, limit: int, overage: int)
}
