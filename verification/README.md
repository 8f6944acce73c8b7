# Delivery lifecycle, verified

A Dafny model of a last-mile delivery service with proofs about it. Routes, missions, orders, courier states
and usage counts are tables; planning, driving, loading, cancelling and sweeping are small steps that change
them, and nearly every repository call commits on its own. The model keeps the tables as the fields of one
mutable store, has one method per service operation proved equal to a specification function on the tables,
and proves the properties of whole runs about those functions. Three smaller parts stand beside it: the shift
timetable, the postponement of orders, and billing (usage metering and invoice webhooks).

Identifiers are numbers whose order only breaks ties. Times of day are microseconds since midnight, instants
are microseconds since the epoch (UTC), money is in cents. An exception is a result (`Raised`, `false` or
`None`) that carries the tables as they were committed so far. The solver is an arbitrary answer; where a
property depends on its contract (visits and unassigned orders are disjoint and together the requested ones,
or it visits only requested orders) the contract is a stated hypothesis.

## Where things are

| file | content |
|---|---|
| `Base.dfy`, `Domain.dfy`, `Tables.dfy` | values and the clock; rows, entity validation and write-back; queries and schema constraints |
| `Store.dfy` | the repositories over mutable tables, with the history of committed states |
| `CourierSpec.dfy`, `CourierService.dfy`, `CourierFrame.dfy` | what a courier request does, the service that does it, what it never touches |
| `RequestColumns.dfy`, `CommitColumns.dfy` | what each step writes, column by column, when it fails, and in which order it commits |
| `PlanningColumns.dfy`, `GenerationColumns.dfy`, `OrderColumns.dfy` | the same for sweeping, cancelling, generating and the order calls |
| `OrderStatuses.dfy` | which events move an order from one status to another, in every run |
| `Driving.dfy`, `WholeDrive.dfy`, `Loading.dfy` | one trip from loading to finish, parcel scans |
| `SolverOutput.dfy`, `Planning.dfy`, `RouteService.dfy` | mapping the solver's answer, the plan and its writes, the route service |
| `PlanPartition.dfy`, `Walk.dfy`, `Sweeping.dfy` | what a stored plan looks like, the walk over its positions, the restartable sweep |
| `OrderCalls.dfy`, `OrderService.dfy`, `Postponement.dfy` | the order service and the postponement batch |
| `Lifecycle.dfy` | runs of all calls in any order, with interruptions between any two commits |
| `Registered.dfy`, `Links.dfy`, `Lineage.dfy`, `Waiting.dfy`, `Metering.dfy` | what every run keeps: statuses, links, lineage, waiting times, usage |
| `Readable.dfy`, `Daytime.dfy` | exactly when rows stay readable, over any number of days and within one |
| `LiveRoutes.dfy`, `Overnight.dfy` | exactly when a terminal keeps one live route, and a run that ends with two |
| `Shifts.dfy`, `Billing.dfy`, `Invoices.dfy` | timetable, the billing service, invoice webhooks |

## What the proofs found

Where the code and what its names or comments promise disagree, the model follows the code.

- The walk by STARTNEXTDELIVERY misses missions if and only if a malformed visit lies between two good ones:
  the position counter is advanced before the visit is dropped (`Walk.PlanWalkIsComplete`). The order of a
  dropped visit is SCHEDULED without a mission, and this is the only way the plan fails to partition the
  requested orders (`PlanPartition.PlanPartitions`).
- A plan that joins a scheduled route carries the solver's own new route id, under which no route is stored.
  It persists exactly when every planned order already has a mission; otherwise it fails after the route and
  all order statuses were committed (`PlanPartition.JoiningNeedsEarlierMissions`).
- A route finished at or before the time of day it started -- past midnight -- is stored as a row its own
  validation rejects; the same happens to a mission completed a second or more before its arrival time of day
  (`Readable.RequestLosesNoRow`). One such row among the newest hundred of a terminal makes the lookup return
  nothing (`LiveRoutes.CheckIsExact`, `LiveRoutes.OvernightFinishHidesTheTerminal`), and a route planned then
  is a second live one (`LiveRoutes.SecondLiveRoute`; `Overnight.TwoLiveRoutes` is a whole run to that end).
- STARTLOADING, STARTROUTE and RETURNTOHUB make a finished or cancelled route live again
  (`LiveRoutes.RevivalIsExact`).
- The sweep spares only missions that are DELIVERED; one delivered with delay is cancelled, and every order of a
  reached mission becomes UNASSIGNED, delivered or not (`Sweeping.SweptMissions`). If one expired row cannot be
  read the sweep does nothing (`Sweeping.NothingExpiredRemains`).
- A cancellation cancels DELIVERED missions too and makes their orders UNASSIGNED (`PlanningColumns.CancelColumns`);
  being released like this, by a cancellation or a sweep, is the only way of a DELIVERED, CANCELLED or POSTPONED
  order back to SCHEDULED (`OrderStatuses.OrdersMoveAsCalled`).
- The three reasons a courier can give for a failed delivery are stored as texts that no mission status has,
  so they are read back as absent (`Domain.StatusTextDecodes`); writing such an entity back changes nothing.
- After FINISHROUTE the courier's state is FINISHROUTE: the reset to IDLE is overwritten. The first state row
  of a courier starts with the request's order in its delivered list, so after a first drive whose first stop
  failed the list names an order that was not delivered (`WholeDrive.WholeDriveConserves`).
- Arrivals and deliveries of an order without a complete delivery window raise; writing an order back clears a
  half-set or inverted window.
- A shift that ends before it starts meets the overlap check only if another one spans its whole gap
  (`Shifts.InvertedShiftIsClear`); only the request schema keeps such shifts out.
- Changing the plan does not change the stored delivery limit (`Billing.BillingService.ChangePlanLimit`), and a
  second usage row for a customer ends its metering (`Metering.TwoRowsEndTheMetering`).

## Model

| member | source | states |
|---|---|---|
| WholeDrive.WholeDriveConserves | app/core/services/courier_state_service.py:249-429 | a whole drive in one day, a courier's first or any later one, succeeds; every mission shows when its stop was reached, ended and left, and the end it had; the usage count rises by the number delivered, the route is FINISHED with its three times, nothing off the trip changes; before the finish the delivered list is exactly the delivered orders if and only if these begin with what the list held at the start -- on a first drive, if and only if the first stop is a delivery |
| WholeDrive.DeliveredListIsExact | app/adapters/repositories/courier_current_state_repository.py:218-255 | the orders of the delivered stops in driving order are exactly those, without repeats |
| WholeDrive.ListIsExact | app/adapters/repositories/courier_current_state_repository.py:218-255 | from any starting list the delivered list holds what it held and the delivered orders, and repeats none it did not repeat |
| WholeDrive.ListIsDelivered | app/adapters/repositories/courier_current_state_repository.py:218-255 | it is the delivered orders alone, in driving order, if and only if they begin with the starting list |
| RequestColumns.RefusalWritesNothing | app/core/services/courier_state_service.py:90-245 | a caller who is no courier, a route that is missing, unreadable or another courier's, and a step at a mission without the one readable mission of its order on the route are refused with nothing written but a courier's first row |
| RequestColumns.HubColumns | app/core/services/courier_state_service.py:286-295 | ARRIVEDATHUB and STARTLOADING succeed and write one time, and the status LOADING for the second |
| RequestColumns.StartColumns | app/core/services/courier_state_service.py:297-308 | STARTROUTE succeeds exactly before a stored finish; the route is ONGOING from now on with the mission of the order as its current one, and all its missions are ONGOING |
| RequestColumns.ArrivalColumns | app/core/services/courier_state_service.py:310-329 | ARRIVEDATDELIVERY succeeds exactly for an order with a window; the mission shows the arrival and the whole minutes until the window opens |
| RequestColumns.DeliveryColumns | app/core/services/courier_state_service.py:331-356 | DELIVERED succeeds exactly for an order with a window; it is late exactly after the window, and mission, order, delivered list and the one usage row of the customer follow |
| RequestColumns.FailureColumns | app/core/services/courier_state_service.py:358-378 | UNDELIVERED succeeds exactly with a reason; mission and order take it, the order is POSTPONED |
| RequestColumns.NextColumns | app/core/services/courier_state_service.py:380-398 | STARTNEXTDELIVERY finishes the mission now, with its service in whole seconds since the arrival, and makes the one mission at the following position the current one |
| RequestColumns.ReturnColumns | app/core/services/courier_state_service.py:400-405 | RETURNTOHUB finishes the mission now and sends the route back |
| RequestColumns.FinishColumns | app/core/services/courier_state_service.py:407-429 | FINISHROUTE finishes an open current mission and no other, and then the route, with the total of its missions' waits and an empty delivered list |
| RequestColumns.TotalIsAddedUp | app/adapters/repositories/mission_repository.py:832-839 | that total is the sum of the waits of the route's missions in whatever order they are listed |
| CommitColumns.PlainCommits | app/core/services/courier_state_service.py:48-135 | a step without a handler's own writes is committed as one route write and then the courier's step |
| CommitColumns.MissionCommits | app/core/services/courier_state_service.py:310-329 | an arrival, and a return, commit the mission first |
| CommitColumns.FailureCommitsColumns | app/core/services/courier_state_service.py:358-378 | a failed delivery commits the mission, then the order, then the rest |
| CommitColumns.DeliveryCommitsColumns | app/core/services/courier_state_service.py:331-356 | a delivery commits the mission, then the order, and the delivered list only with the usage count or, without one, with the route |
| CommitColumns.NextCommits | app/core/services/courier_state_service.py:380-398 | leaving for the next stop commits the mission, then the route once, or twice when there is a next mission |
| CommitColumns.FinishCommitsColumns | app/core/services/courier_state_service.py:407-429 | a finish commits an open mission, then the emptied list with IDLE, then the route, then FINISHROUTE over IDLE |
| LiveRoutes.OneLiveRoutePerTerminal | app/core/services/route_service.py:436-454 | in every run over any number of days, interrupted anywhere, a live route is newer than all others of its terminal, as long as no request revives a route that is not its terminal's newest and no generation stores a route while an unreadable row hides a live one |
| LiveRoutes.OneLiveRouteExactly | app/core/services/route_service.py:436-454 | in a run without interruptions this holds in all states if and only if every event keeps to that condition |
| LiveRoutes.OneLiveRouteWithinADay | app/core/services/route_service.py:436-454 | within one day, from readable tables and with couriers on routes not over, it holds without that condition, and the hundred-row lookup finds every live route |
| LiveRoutes.StepKeepsNewest | app/core/services/route_service.py:436-454 | one uninterrupted event keeps the invariant if and only if it meets the condition; an interrupted one that meets it keeps it |
| LiveRoutes.AtMostOneLive | app/core/services/route_service.py:443-453 | so two live routes of one terminal are the same route |
| LiveRoutes.CheckIsExact | app/core/services/route_service.py:436-454 | the check finds nothing if and only if no route of the terminal is live or one of its newest hundred rows is unreadable; what it joins is a scheduled route of the terminal |
| GenerationColumns.CheckColumns | app/core/services/route_service.py:436-454 | for any tables: the check blocks exactly when a LOADING, ONGOING or RETURNTOHUB route is among the newest hundred of the terminal and these can all be read, and what it joins is the oldest SCHEDULED one among them |
| LiveRoutes.LookupFindsTheLiveRoute | app/adapters/repositories/route_repository.py:171-202 | however many routes a terminal has, the lookup returns its live one if and only if none of the newest hundred rows of the terminal is unreadable |
| LiveRoutes.OvernightFinishHidesTheTerminal | app/adapters/repositories/route_repository.py:171-202 | a finish that is stored at or before the time of day of the start, whether or not a mission was still open, leaves a row after which the check finds no route at the terminal |
| LiveRoutes.NewRouteKeepsNewest | app/core/services/route_service.py:690-699 | storing a new live route keeps the invariant if and only if its terminal has no live route |
| LiveRoutes.StoredRouteKeepsNewest | app/core/services/route_service.py:436-454 | a generation that stores a new route keeps it if and only if the check could see a live route or there was none |
| LiveRoutes.SecondLiveRoute | app/core/services/route_service.py:436-454 | a generation that stores a route while a live one is hidden ends with two live routes of the terminal |
| Overnight.TwoLiveRoutes | app/core/services/route_service.py:436-454 | a run from readable, linked tables with at most one live route, by a finish past midnight and a generation, to two live routes of one terminal |
| LiveRoutes.RevivalIsExact | app/core/services/courier_state_service.py:249-429 | a request makes a route that is over live if and only if it is a STARTLOADING, STARTROUTE or RETURNTOHUB that reaches the write-back; one that succeeds does so exactly for these three steps |
| LiveRoutes.RevivalKeepsNewest | app/core/services/courier_state_service.py:249-429 | reviving a route keeps the invariant if and only if that route is the newest of its terminal |
| LiveRoutes.RequestStatus | app/core/services/courier_state_service.py:249-429 | the route status after any request, accepted or not, is that of its step if the write-back is reached and unchanged otherwise |
| Sweeping.SweepRestarts | app/core/services/route_service.py:972-1010 | a sweep interrupted after any commit and run again with the same clock reaches the state of one uninterrupted sweep |
| Sweeping.SweepIsIdempotent | app/core/services/route_service.py:972-1010 | a further sweep with the same clock changes nothing |
| Sweeping.CancelRestarts | app/core/services/route_service.py:820-861 | a cancellation interrupted after any commit and called again reaches the state of one uninterrupted call |
| PlanningColumns.SweepColumns | app/core/services/route_service.py:972-1010 | exactly the routes past their shift and neither FINISHED nor CANCELLED are cancelled; of their first hundred missions all but the DELIVERED ones are, and the orders of these missions are UNASSIGNED |
| PlanningColumns.UnreadableStopsTheSweep | app/adapters/repositories/route_repository.py:650-678 | one such route that cannot be read keeps the sweep from doing anything |
| PlanningColumns.CancelColumns | app/core/services/route_service.py:820-861 | a readable route is cancelled whatever its status, with its first hundred missions, delivered or not, and their orders are UNASSIGNED |
| Sweeping.NothingExpiredRemains | app/adapters/repositories/route_repository.py:650-678 | after a sweep no route whose shift has ended is left unfinished exactly when all such routes could be read; otherwise the sweep changes nothing |
| Sweeping.SweptMissions | app/core/services/route_service.py:984-999 | DELIVERED missions keep their status, all others reached are cancelled, and every order of a reached mission is released |
| SolverOutput.MapVisitSteps | app/adapters/services/trend_route_solver_service.py:315-419 | the loop with its position counter yields the missions of the kept visits, a dropped visit using up its position |
| SolverOutput.PositionsFollowVisits | app/adapters/services/trend_route_solver_service.py:315-419 | positions strictly increase between 1 and the number of visits, and a position is used exactly when its visit was kept |
| GenerationColumns.VisitColumns | app/adapters/services/trend_route_solver_service.py:315-419 | every good visit becomes a mission with its own arrival, duration, distance, service and waiting figures, at its number among all visits |
| GenerationColumns.MissionColumns | app/adapters/services/trend_route_solver_service.py:315-419 | there is no other mission |
| Walk.WalkIsConsecutive | app/adapters/repositories/mission_repository.py:818-830 | following the next position visits consecutive positions and stops at the first that no mission holds |
| Walk.VisitsOnce | app/adapters/repositories/mission_repository.py:818-830 | no mission is visited twice |
| Walk.WalkReachesAll | app/adapters/repositories/mission_repository.py:818-830 | it reaches every mission from a position on exactly when no position on the way is free |
| Walk.PlanWalkIsComplete | app/adapters/services/trend_route_solver_service.py:315-419 | on a freshly stored route it reaches all missions exactly when no visit between two kept ones was dropped |
| Walk.LeavingFollowsTheWalk | app/core/services/courier_state_service.py:380-398 | repeated STARTNEXTDELIVERY succeeds, finishes exactly the missions of the walk one after the other, and stays at the last |
| Walk.FreshRouteIsFinished | app/core/services/courier_state_service.py:380-398 | enough of these calls finish every mission of a fresh route exactly when no visit between two kept ones was dropped |
| Readable.EveryRowStaysReadable | app/core/entities/domain_entities.py:522-534 | in every run over any number of days, interrupted anywhere, in which courier requests are in time, all stored routes and missions satisfy their entity validation |
| Readable.ReadableExactlyInTime | app/core/entities/domain_entities.py:522-534 | when courier requests run to their ends, all rows are readable in all states if and only if all requests are in time |
| Readable.RequestLosesNoRow | app/core/services/courier_state_service.py:249-444 | for every step: a request leaves every readable row readable if and only if the mission it completes was not reached later in the day, a start lies before a stored finish, and a finish after a stored start |
| Daytime.ReadableWithinADay | app/core/entities/domain_entities.py:522-534 | within one day every row stays readable in every run in which no route is started at or after its stored finish |
| Daytime.LiveRequestsStayReadable | app/core/entities/domain_entities.py:522-534 | in particular while couriers address only routes that are not over |
| Readable.SucceedsExactlyInTime | app/core/services/courier_state_service.py:297-429 | a STARTROUTE, RETURNTOHUB or FINISHROUTE that gets through to its handler succeeds if and only if it is in time |
| Readable.NextSucceedsExactly | app/core/services/courier_state_service.py:380-398 | STARTNEXTDELIVERY succeeds if and only if it is in time and the next mission is none, or one that can be read |
| Readable.CompletionKeepsReadable | app/core/services/courier_state_service.py:431-444 | a completed mission is readable if and only if it is not completed a second or more before its arrival |
| Shifts.OverlapIsSharedInstant | app/adapters/repositories/hub_shift_repository.py:288-296 | the overlap test holds exactly when two shifts share an instant of their half-open intervals |
| Shifts.InvertedShiftIsClear | app/adapters/repositories/hub_shift_repository.py:288-296 | a shift that does not start before it finishes passes the check if and only if each shift of its hub misses some instant between its finish and its start; two such shifts never conflict |
| Shifts.AcceptedExactlyWhenDisjoint | app/core/services/shift_service.py:85-200 | create and update accept a shift if and only if the timetable with it stays disjoint |
| Shifts.RunsKeepTheTimetable | app/core/services/shift_service.py:36-228 | every run of create, update and delete keeps each hub's shifts pairwise disjoint |
| Shifts.FinishesBeforeTheNext | app/adapters/repositories/hub_shift_repository.py:134-157 | in the list sorted by start each finish is at or before every later start |
| Shifts.TotalWithinOneDay | app/adapters/repositories/hub_shift_repository.py:134-157 | the shifts of a hub take at most one day together |
| Shifts.CurrentClockShift | app/core/services/route_service.py:948-970 | the scan returns the first shift whose closed interval holds the time, and none exactly when no shift does |
| Shifts.MatchingShiftsTouch | app/core/services/route_service.py:955-964 | on a disjoint sorted timetable two matches are neighbours that touch at that instant, and no third one matches |
| Shifts.NeighboursMatchWhereTheyTouch | app/core/services/route_service.py:955-964 | two neighbours both match exactly at the instant at which one ends and the other starts |
| Shifts.ShiftService.CheckShiftOverlap | app/adapters/repositories/hub_shift_repository.py:174-211 | a conflicting shift of the hub other than the excluded one, or none if there is none |
| Shifts.ShiftService.CreateShift | app/core/services/shift_service.py:36-136 | stores the shift exactly when it is accepted |
| Shifts.ShiftService.UpdateShift | app/core/services/shift_service.py:138-207 | changes the times exactly when the change is accepted, against the other shifts of the hub |
| Shifts.ShiftService.DeleteShift | app/core/services/shift_service.py:209-228 | removes an existing shift that no order and no route refers to, and nothing else |
| Shifts.ShiftService.GetByTerminalId | app/adapters/repositories/hub_shift_repository.py:134-157 | every shift of the hub once, by start |
| Shifts.ShiftService.GetCurrentShift | app/core/services/route_service.py:948-970 | a matching shift of the hub with the earliest start, or none exactly when none matches |
| PlanPartition.PlanPartitions | app/core/services/route_service.py:690-751 | a plan for a new route persists; each requested order is SCHEDULED if visited and UNASSIGNED otherwise, the announced number of missions is stored, and SCHEDULED coincides with having a mission for all orders exactly when no visit was dropped |
| PlanPartition.DecidedPlanIsFresh | app/core/services/route_service.py:590-640 | a generation at a terminal without a scheduled route, for orders without missions, decides on such a plan |
| PlanPartition.JoiningNeedsEarlierMissions | app/core/services/route_service.py:690-745 | a plan that joins a scheduled route persists exactly when each of its orders already has a mission |
| GenerationColumns.RefusedExactly | app/core/services/route_service.py:404-560 | a generation is refused if and only if the limit or a route under way forbids it, an entity, an order or the solver's answer is missing, some order is not REGISTERED, UNASSIGNED or SCHEDULED or is of another courier, hub or shift, or the route's figures are invalid; otherwise nothing is routed if and only if no visit is good |
| GenerationColumns.NothingPlannedColumns | app/core/services/route_service.py:404-616 | a refused generation leaves what its sweep leaves; one that routes nothing also makes every fetched order UNASSIGNED |
| GenerationColumns.DecidedColumns | app/adapters/services/trend_route_solver_service.py:421-490 | the planned route has the request's owner, start and finish and the solver's figures, the duration in whole minutes, and joins the oldest scheduled route of the terminal if there is one |
| GenerationColumns.PersistColumns | app/core/services/route_service.py:690-720 | a new route is stored as planned, a joined one keeps its owner and creation time; every fetched order becomes UNASSIGNED or SCHEDULED exactly when the route could be stored |
| GenerationColumns.MissionWritten | app/core/services/route_service.py:722-751 | an earlier mission of an order is planned anew on the route it has, an order without one gets it under a new id, and nothing else is written |
| OrderStatuses.OrdersMoveAsCalled | app/core/services/route_service.py:404-770 | in every run, interrupted anywhere: an order becomes SCHEDULED only in a generation it was fetched for, from REGISTERED or UNASSIGNED or released by that generation's own sweep; UNASSIGNED only by a generation or the cancellation of its route; DELIVERED, POSTPONED and CANCELLED only by a call that names it; REGISTERED never again |
| Postponement.PostponementIsAllOrNothing | app/adapters/repositories/order_repository.py:1089-1146 | a batch succeeds exactly when no found id repeats and each longer barcode is free and fits; then every found order is POSTPONED and has exactly one successor: REGISTERED, linked to it, at the hub and shift of the batch, with the date in its barcode and as expected date, and the parent's courier and window; otherwise nothing changes |
| Lineage.LineageEnds | app/adapters/repositories/order_repository.py:1110-1132 | in every run, from any tables without a lineage loop, following `moved_as` ends |
| Lineage.AtMostNinePostponements | app/adapters/database/models/order.py:42-62 | while barcodes are given and not edited, no chain has more than nine postponements |
| Lineage.BarcodesStayUnique | app/adapters/database/models/order.py:42 | in every run no two orders share a barcode |
| OrderService.OrderService.PostponeOrders | app/core/services/order_service.py:641-726 | one commit with the whole batch, or none and the tables as they were |
| OrderService.OrderService.RegisterOrder | app/core/services/order_service.py:245-277 | a new REGISTERED order in one commit, or nothing |
| OrderService.OrderService.UpdateOrder | app/core/services/order_service.py:449-558 | only REGISTERED and POSTPONED orders change, a new barcode only if it is free |
| OrderService.OrderService.DeleteOrder | app/core/services/order_service.py:560-639 | removes a REGISTERED order, cancels a POSTPONED or UNASSIGNED one, refuses all others |
| OrderService.OrderService.MarkDelivered | app/core/services/order_service.py:728-772 | any order not delivered yet becomes DELIVERED with the day as its date |
| OrderService.OrderService.MarkCancelled | app/core/services/order_service.py:820-863 | any order not cancelled yet becomes CANCELLED |
| OrderColumns.RegisterColumns | app/core/services/order_service.py:245-277 | a new order is stored REGISTERED and without a parent exactly when its id and barcode are free |
| OrderColumns.EditColumns | app/core/services/order_service.py:449-558 | an edit is accepted exactly for a REGISTERED or POSTPONED order and a barcode that is free; what is not given, and an empty barcode, stays |
| OrderColumns.RemoveColumns | app/core/services/order_service.py:560-639 | a REGISTERED order goes with its missions, a POSTPONED or UNASSIGNED one is CANCELLED, any other stays |
| OrderColumns.MarkDeliveredColumns | app/core/services/order_service.py:728-772 | any order not delivered yet is, dated at the midnight of the day |
| OrderColumns.MarkCancelledColumns | app/core/services/order_service.py:820-863 | any order not cancelled yet is, delivered or not |
| Registered.NoMissionForARegisteredOrder | app/core/services/route_service.py:705-751 | in every run, interrupted anywhere, no mission's order is REGISTERED |
| Registered.HardDeleteLeavesMissions | app/core/services/order_service.py:591-614 | so a deletion that removes an order's row never removes a mission |
| Links.LinksHold | app/adapters/database/models/mission.py:31-41 | in every run each mission has its route and order, and no order has two missions |
| Loading.LoadsUpToFirstFailure | app/core/services/courier_state_service.py:446-492 | scanning stops at the first order that cannot be loaded with exactly the earlier ones marked, and completes exactly when all can |
| Loading.LeadingIsFirstFailure | app/core/services/courier_state_service.py:573-600 | the orders before that point can be loaded and the one at it cannot |
| Loading.LoadedSet | app/adapters/repositories/mission_repository.py:856-864 | the scanned set grows by exactly the missions of the fetched orders |
| Loading.SelfManagedStartScans | app/core/services/courier_state_service.py:548-609 | this holds after the whole self-managed start, and nothing remains to be scanned when the orders cover the route |
| Loading.SelfManagedColumns | app/core/services/courier_state_service.py:548-609 | when all orders can be loaded, the route is ONGOING with the mission of the first requested order as its current one, and exactly the fetched parcels are marked |
| Loading.ScansCommitOneByOne | app/core/services/courier_state_service.py:446-492 | each scan that succeeds is one commit, the i-th leaving exactly the first i parcels marked |
| Loading.SelfManagedCommitsScans | app/core/services/courier_state_service.py:573-609 | a self-managed start commits every scan up to the first failure and, if there is none, what the start request commits |
| Loading.FailedSelfManagedStart | app/core/services/courier_state_service.py:573-609 | if some order cannot be loaded, exactly the earlier parcels are marked and route and courier state are as before |
| Waiting.WaitingTimeAccounting | app/core/services/courier_state_service.py:407-429 | whenever an event of a run finishes a route, whatever was planned, swept or edited before, the total stored is the sum over the route's missions of the wait of each one's last stored arrival, at most 1439 minutes each |
| Waiting.WaitsAreLatest | app/core/services/courier_state_service.py:310-329 | in every run of the whole system, interrupted anywhere, a mission shows the wait of its last stored arrival, and none before there is one |
| Waiting.EarlinessInMinutes | app/core/services/courier_state_service.py:317-326 | a recorded wait is the earliness in whole minutes, between 0 and 1439 |
| Waiting.FinishStoresTotal | app/core/services/courier_state_service.py:421-427 | a successful finish stores the total of the waits its route's missions then show |
| Store.Store.TotalWaitingTime | app/adapters/repositories/mission_repository.py:832-839 | the sum over all missions of the route, absent waits contributing nothing |
| Billing.MeteredBalances | app/core/entities/domain_entities.py:751-773 | count and remaining make up limit and overage |
| Metering.MeteringStaysExact | app/adapters/repositories/usage_record_repository.py:75-130 | in every run of usage events the overage is what the count exceeds the limit by |
| Metering.MeteringStaysExactInRuns | app/core/services/courier_state_service.py:331-356 | and in every run of the whole system, interrupted anywhere |
| Metering.CountFollowsDeliveries | app/adapters/repositories/usage_record_repository.py:75-104 | the count of a customer rises by one for each of its recorded deliveries, and its limit never changes |
| Billing.AdmittedExactlyWhenItFits | app/core/services/billing_service.py:605-632 | a route of n orders is admitted exactly when n does not exceed what remains; a route of none when nothing is over |
| Metering.DisciplineKeepsTheLimit | app/core/services/billing_service.py:605-632 | in every run of the whole system, if each admission of n orders of a customer is followed by at most n recorded deliveries before the next, its overage stays 0 |
| Metering.TwoRowsEndTheMetering | app/adapters/repositories/usage_record_repository.py:55-73 | with two usage rows for a customer deliveries are not counted and every route is admitted |
| Billing.BillingService.RecordDelivery | app/core/services/billing_service.py:548-566 | counts for the user's customer in one commit when it has one usage row, and changes nothing else |
| Billing.BillingService.CanGenerateRoute | app/core/services/billing_service.py:605-632 | admission by the customer's single usage row, and always without one |
| Billing.BillingService.CheckDeliveryLimit | app/core/services/billing_service.py:568-603 | allowed exactly when a route of one order would be admitted; over the limit exactly when there is overage |
| Billing.BillingService.GetCurrentUsage | app/core/services/billing_service.py:520-546 | a summary whose count and remaining make up limit and overage |
| Billing.BillingService.ChangePlanLimit | app/core/services/billing_service.py:421-426 | the stored usage, limit included, is as before |
| Billing.BillingService.OpenUsage | app/adapters/repositories/usage_record_repository.py:23-45 | a new row counts from zero |
| Invoices.TableIsTheFold | app/core/services/billing_service.py:1024-1143 | at most one invoice per Stripe id, and one exactly if an event named it and a known customer; its status is that of the last such event, paid or failed, the amount paid that of the last paid one or zero, the amount due the first's |
| Invoices.DifferentInvoicesCommute | app/core/services/billing_service.py:1060-1143 | events for different invoices commute |
| Invoices.RepetitionChangesOnlyPaidAt | app/core/services/billing_service.py:1060-1143 | delivering the last event again changes at most the payment time |
| Invoices.InvoiceWebhooks.HandleStripeWebhook | app/core/services/billing_service.py:766-812 | after any webhook, whatever was handled before, there is one row per Stripe id and it shows the outcome of all events for that invoice |
| Invoices.InvoiceWebhooks.HandleInvoicePaid | app/core/services/billing_service.py:1024-1089 | the handler is the fold's step for a paid invoice |
| Invoices.InvoiceWebhooks.HandleInvoicePaymentFailed | app/core/services/billing_service.py:1091-1143 | the handler is the fold's step for a failed payment |
| Invoices.InvoiceWebhooks.Create | app/adapters/repositories/invoice_repository.py:20-43 | rejected when the key or the Stripe id is taken |
| Invoices.InvoiceWebhooks.Update | app/adapters/repositories/invoice_repository.py:93-109 | five columns of an existing row take the given values; the Stripe id, the customer and the subscription of the row, every other row and the rows found for each Stripe id stay as they were |
| Domain.WriteBackIsInvisible | app/adapters/repositories/mission_repository.py:901-952 | reading a mission and writing it back amid any updates changes nothing, even where a text cannot be decoded |
| Domain.UpdatesKeepLastGiven | app/adapters/repositories/mission_repository.py:442-510 | after any series of updates each written field holds its last given value, and the links never change |
| Domain.StatusTextDecodes | app/core/entities/_enums.py:60-146 | the status texts decode to themselves, the three failure reasons never decode |
| Domain.RejectedRoute | app/core/entities/domain_entities.py:522-534 | a route is rejected for one of five reasons and for nothing else |
| Domain.RejectedMission | app/core/entities/domain_entities.py:608-633 | a mission is rejected for one of nine negative figures and for nothing else |
| Tables.ShortRoutesFitThePage | app/adapters/repositories/mission_repository.py:143-174 | a route of at most a hundred missions is returned whole |
| Tables.PageIsTheFirstHundred | app/adapters/repositories/mission_repository.py:143-174 | a page has all missions of the route but at most a hundred, each of them before every one left out by position, then by row |
| CourierFrame.SetStateFrame | app/core/services/courier_state_service.py:48-135 | no courier request, however it ends, changes another route, a mission's links, position, plan or scan, or an order's owner, barcode, lineage or window |
| CourierFrame.CommitsMix | app/core/services/courier_state_service.py:48-135 | after any commit of a request, routes, missions, orders and usage are each as before the request or as after it |
| CourierService.CourierStateService.SetCourierState | app/core/services/courier_state_service.py:48-135 | does what the specification says, commits exactly the states the specification lists, in order, and an exception leaves exactly what was committed before it |
| CourierService.CourierStateService.Advance | app/core/services/courier_state_service.py:249-284 | the handler, the route's write-back with its read-back, then the courier's state |
| CourierService.CourierStateService.HandleArrivedAtDelivery | app/core/services/courier_state_service.py:310-329 | as specified, including the failure without a window |
| CourierService.CourierStateService.HandleDelivered | app/core/services/courier_state_service.py:331-356 | as specified: mission, order, delivered list and usage |
| CourierService.CourierStateService.HandleUndelivered | app/core/services/courier_state_service.py:358-378 | as specified: mission and order, nothing without a reason |
| CourierService.CourierStateService.HandleStartNextDelivery | app/core/services/courier_state_service.py:380-398 | the mission finishes now, with its whole seconds of service; the next mission by position becomes the current one |
| CourierService.CourierStateService.HandleFinishRoute | app/core/services/courier_state_service.py:407-429 | an open mission finishes now; total waiting time and cleared list |
| CourierService.CourierStateService.CompleteMission | app/core/services/courier_state_service.py:431-444 | the finish time is now, and the service time the whole seconds since the arrival, rounded toward zero |
| CourierService.CourierStateService.SetParcelLoading | app/core/services/courier_state_service.py:446-492 | marks one parcel and counts the ones that remain |
| CourierService.CourierStateService.StartRouteSelfManaged | app/core/services/courier_state_service.py:548-609 | scans every fetched order and then starts with the first requested one, stopping at the first failure |
| RouteService.RouteService.HandleRoutesWithPassedShift | app/core/services/route_service.py:972-1010 | the state of the whole sweep, every commit on the way being a legal stage of it |
| RouteService.RouteService.CancelRoute | app/core/services/route_service.py:820-861 | the route, its missions among the first hundred and their orders are cancelled and released, every commit being a stage of that |
| RouteService.RouteService.CheckCurrentRoutes | app/core/services/route_service.py:436-454 | blocked by a route on the road, otherwise the oldest recent scheduled route is joined |
| RouteService.RouteService.PersistPlan | app/core/services/route_service.py:667-770 | route, order statuses and missions in this order, every commit being a stage, and nothing after the first failure |
| RouteService.RouteService.GenerateRoute | app/core/services/route_service.py:404-665 | one request from the sweep to the last write, with its refusals and the case that nothing is routed; every commit is one of the interruption points that the runs allow |
| RouteService.RouteService.MarkUnassigned | app/core/services/route_service.py:588-616 | every fetched order becomes UNASSIGNED, one commit after the other |
| Store.Store.UpdateRoute | app/adapters/repositories/route_repository.py:436-492 | commits, then fails if the row cannot be read back; owner and creation time stay |
| Store.Store.CreateRoute | app/adapters/repositories/route_repository.py:27-78 | commits a row with a new key, and fails if it cannot be read back |
| Store.Store.UpdateMission | app/adapters/repositories/mission_repository.py:442-510 | merges the given fields and commits, then fails if the row cannot be read back |
| Store.Store.CreateMission | app/adapters/repositories/mission_repository.py:27-83 | rejected for a taken key, a taken order or a missing route or order |
| Store.Store.SetMissionStatusByRoute | app/adapters/repositories/mission_repository.py:841-854 | every mission of the route shows the status, every other mission and every other column stays, pending the next commit |
| Store.Store.UpdateOrder | app/adapters/repositories/order_repository.py:917-961 | overwrites all but the owner and the lineage |
| Store.Store.AddDeliveredOrder | app/adapters/repositories/courier_current_state_repository.py:218-255 | the order is in an existing row's list, which grows by it only if it was not there; no repeat arises, and steps and other couriers stay |
| Store.Store.ClearDeliveredOrders | app/adapters/repositories/courier_current_state_repository.py:296-322 | the list of that courier is empty; its step and all other couriers stay |
| Store.Store.UpdateCourierState | app/adapters/repositories/courier_current_state_repository.py:188-216 | the step alone changes, and the call commits |
| Store.Store.IncrementDeliveryCount | app/adapters/repositories/usage_record_repository.py:75-104 | counts and commits exactly when the customer has one usage row |
| Store.Store.UpdateUsage | app/adapters/repositories/usage_record_repository.py:115-130 | the stored limit stays |

## Left out

- RouteService.RouteService.CancelRoute: the order in which its missions, and then their orders, are written is left open; the route comes first and all missions before any order.
- OrderService.OrderService.RegisterOrder: the lookups of the hub, the courier and the shift, and the recipient's user and row, which are written and committed before the insert.
- OrderService.OrderService.UpdateOrder: the recipient's row, written in the same transaction.
- Interruption inside `start_route_self_managed` is that of its parts: a run breaks it up into scans and one courier request.
- Concurrent calls: each call reads and writes without another one in between.
- The clock is read once per call; the code reads it again for some fields of the same call.
- Ties in ORDER BY are broken by row id, where the database may return either order.
- Fresh UUIDs: that newly drawn ids are new is a hypothesis where it matters.
- `updated_at`, names, colours, addresses, coordinates, weights, volumes, vehicles and recipients: carried along by the code without influence on the properties.
- Who may call what: a refused call leaves the tables as they are; ownership of a hub is given as a flag.
- The solver's input, its request and its capacity arithmetic; of its answer only the first route is used, as in the code.
- Overflow of the money columns and parsing of currencies in webhooks.
- `usage_percentage` in the usage summary, a rounded display value.
- `change_plan` beyond the usage row, checkout, subscriptions, payments and Stripe itself.
- `mark_returned` and the subscription-updated webhook: they name enum members that do not exist.
- Login, tokens, roles, filters, paginated listings, avatars, e-mail, OCR, seeds and migrations.
