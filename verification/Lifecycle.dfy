/** Runs of the whole system: the calls in any order, and the interruptions between their commits. */
module Lifecycle {
  import opened Base
  import opened Domain
  import opened Tables
  import opened CourierSpec
  import opened SolverOutput
  import opened Planning
  import opened OrderCalls

  /**
   One call, or one that stops after any of its commits. A scan and a change to orders commit at most once;
   loading a whole route by its courier is a series of scans followed by a courier request.
   */
  datatype Op =
    | Generate(g: Generation)
    | GenerateInterrupted(g: Generation)
    | Cancel(route: Id)
    | CancelInterrupted(route: Id)
    | Courier(user: Id, request: Request)
    | CourierInterrupted(user: Id, request: Request)
    | ScanParcel(route: Id, barcode: string)
    | OrderChange(call: OrderCall)

  datatype Event = Event(op: Op, at: Instant)

  /** A courier's request, whole or interrupted. */
  predicate ByCourier(e: Event) {
    e.op.Courier? || e.op.CourierInterrupted?
  }

  ghost predicate Leads(db: Db, dir: Directory, e: Event, next: Db) {
    match e.op
    case Generate(g) => next == AfterGenerate(db, dir, g, e.at)
    case GenerateInterrupted(g) => DuringGenerate(db, dir, g, e.at, next)
    case Cancel(rid) => next == AfterCancel(db, rid)
    case CancelInterrupted(rid) => DuringCancel(db, rid, next)
    case Courier(user, rq) => next == SetState(db, dir, user, rq, e.at).db
    case CourierInterrupted(user, rq) => DuringCourier(db, dir, user, rq, e.at, next)
    case ScanParcel(rid, barcode) => next == Scan(db, rid, barcode, e.at).db
    case OrderChange(call) => CallFits(call) && next == AfterOrderCall(db, call)
  }

  predicate CallFits(c: OrderCall) {
    c.Postpone? ==> |c.batch.ids| == |c.batch.newIds|
  }

  /** The solver visits only orders it was asked about. */
  ghost predicate VisitsRequested(g: Generation) {
    g.response.Some? && g.response.value.routes != [] ==>
      forall s <- g.response.value.routes[0].steps :: s.Visit? && s.order.Some? ==> s.order.value in g.fetched
  }

  /** What the collaborators of a call guarantee: the database's rows, the solver's visits, newly drawn ids. */
  ghost predicate Supplied(db: Db, e: Event) {
    match e.op
    case Generate(g) => FetchedRows(db.orders, g.requested, g.fetched) && VisitsRequested(g)
    case GenerateInterrupted(g) => FetchedRows(db.orders, g.requested, g.fetched) && VisitsRequested(g)
    case OrderChange(call) => NewIds(db.orders, call)
    case _ => true
  }

  /** `states[i + 1]` is what the `i`-th event leaves of `states[i]`. */
  ghost predicate Run(dir: Directory, states: seq<Db>, events: seq<Event>) {
    && |states| == |events| + 1
    && forall i :: 0 <= i < |events| ==>
         Supplied(states[i], events[i]) && Leads(states[i], dir, events[i], states[i + 1])
  }

  lemma RunStep(dir: Directory, states: seq<Db>, events: seq<Event>, k: nat)
    requires Run(dir, states, events) && k < |events|
    ensures k + 1 < |states| && Supplied(states[k], events[k]) && Leads(states[k], dir, events[k], states[k + 1])
  {
    hide Supplied, Leads;
  }

  /** An uninterrupted generation ends in the last of its own stages. */
  lemma WholeGenerationIsAStage(db: Db, dir: Directory, g: Generation, now: Instant)
    ensures DuringGenerate(db, dir, g, now, AfterGenerate(db, dir, g, now))
  {
    var t := TimeOf(now);
    var db1 := AfterSweep(db, t);
    var all := Reached(db, t);
    match Decide(db1, dir, g)
    case Refused =>
      assert SweepProgress(db, t, Swept(db.routes, t), all, all);
    case NothingRouted =>
      assert g.fetched[..|g.fetched|] == g.fetched;
    case Persist(plan) =>
      assert AfterPersist(db1, plan, now) == PersistState(db1, plan, now, 1 + |plan.orders| + |plan.missions|);
  }

  lemma WholeCancellationIsAStage(db: Db, rid: Id)
    ensures DuringCancel(db, rid, AfterCancel(db, rid))
  {
  }
}
