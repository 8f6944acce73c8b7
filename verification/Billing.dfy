/** The billing service: usage metering, and the admission of deliveries and routes by what remains of a limit. */
module Billing {
  import opened Base
  import opened Domain
  import opened Tables
  import opened Store

  function Remaining(u: Usage): int {
    if u.limit - u.count > 0 then u.limit - u.count else 0
  }

  /** The overage is what the count exceeds the limit by. */
  predicate Metered(u: Usage) {
    u.count >= 0 && u.limit >= 0 && u.overage == if u.count > u.limit then u.count - u.limit else 0
  }

  /** Used and remaining deliveries make up the limit and what went beyond it. */
  lemma MeteredBalances(u: Usage)
    requires Metered(u)
    ensures u.count + Remaining(u) == u.limit + u.overage && (u.overage > 0 ==> Remaining(u) == 0)
  {
  }

  /** A customer without exactly one usage row is not limited. */
  function CanGenerate(usage: map<Id, Usage>, dir: Directory, user: Id, orders: nat): bool {
    user in dir.customerOf ==>
      var u := UsageOf(usage, dir.customerOf[user]);
      u.One? && u.id in usage ==> usage[u.id].count + orders <= usage[u.id].limit
  }

  /** A route of `n` orders is admitted exactly when `n` does not exceed what remains; of none, when nothing is over. */
  lemma AdmittedExactlyWhenItFits(usage: map<Id, Usage>, dir: Directory, user: Id, u: Id, n: nat)
    requires user in dir.customerOf && UsageOf(usage, dir.customerOf[user]) == One(u) && u in usage
    requires Metered(usage[u])
    ensures CanGenerate(usage, dir, user, n) <==> if n > 0 then n <= Remaining(usage[u]) else usage[u].overage == 0
  {
  }

  // ---------------------------------------------------------------- what happens to the usage rows

  datatype UsageEvent =
    | Opened(id: Id, customer: Id, limit: int)
    | Recorded(customer: Id)
    | PlanChanged(customer: Id, limit: int)

  /** Changing the plan writes the count and the overage back as they were read; the new limit is lost. */
  function AfterUsageEvent(usage: map<Id, Usage>, e: UsageEvent): map<Id, Usage> {
    match e
    case Opened(id, customer, limit) => if id in usage then usage else usage[id := Usage(customer, 0, limit, 0)]
    case Recorded(customer) => Incremented(usage, customer)
    case PlanChanged(customer, limit) => usage
  }

  // ---------------------------------------------------------------- the service

  datatype LimitCheck = LimitCheck(allowed: bool, remaining: int, atLimit: bool, overLimit: bool)

  datatype Summary = Summary(count: int, limit: int, overage: int, remaining: int)

  class BillingService {
    const store: Store

    constructor (store: Store)
      ensures this.store == store
    {
      this.store := store;
    }

    method RecordDelivery(user: Id)
      modifies store
      ensures var dir := store.directory;
              store.State() == if user in dir.customerOf then
                                 old(store.State()).(usage := Incremented(old(store.usage), dir.customerOf[user]))
                               else old(store.State())
      ensures store.history == old(store.history)
                               + if user in store.directory.customerOf
                                    && UsageOf(old(store.usage), store.directory.customerOf[user]).One?
                                 then [store.State()] else []
    {
      if user in store.directory.customerOf {
        store.IncrementDeliveryCount(store.directory.customerOf[user]);
      }
    }

    method CanGenerateRoute(user: Id, orders: nat) returns (ok: bool)
      ensures ok == CanGenerate(store.usage, store.directory, user, orders)
    {
      if user !in store.directory.customerOf {
        return true;
      }
      var u := UsageOf(store.usage, store.directory.customerOf[user]);
      if !u.One? {
        return true;
      }
      ok := !(store.usage[u.id].count + orders > store.usage[u.id].limit);
    }

    /** One more delivery is allowed exactly when a route of one order would be admitted. */
    method CheckDeliveryLimit(user: Id) returns (check: LimitCheck)
      ensures check.allowed == CanGenerate(store.usage, store.directory, user, 1)
      ensures check.allowed == !check.atLimit && (check.overLimit ==> check.atLimit) && check.remaining >= 0
      ensures user in store.directory.customerOf ==>
                var u := UsageOf(store.usage, store.directory.customerOf[user]);
                u.One? && u.id in store.usage ==>
                  && check.remaining == Remaining(store.usage[u.id])
                  && (Metered(store.usage[u.id]) ==> check.overLimit == (store.usage[u.id].overage > 0))
    {
      if user !in store.directory.customerOf {
        return LimitCheck(true, 300, false, false);
      }
      var u := UsageOf(store.usage, store.directory.customerOf[user]);
      if !u.One? {
        return LimitCheck(true, 300, false, false);
      }
      var row := store.usage[u.id];
      var remaining := if row.limit - row.count > 0 then row.limit - row.count else 0;
      check := LimitCheck(!(row.count >= row.limit), remaining, row.count >= row.limit, row.count > row.limit);
    }

    /** None where the user has no customer or no single usage row. */
    method GetCurrentUsage(user: Id) returns (summary: Option<Summary>)
      ensures summary.Some? <==> user in store.directory.customerOf
                                 && UsageOf(store.usage, store.directory.customerOf[user]).One?
      ensures summary.Some? ==>
                var u := UsageOf(store.usage, store.directory.customerOf[user]);
                && u.One? && u.id in store.usage
                && (Metered(store.usage[u.id]) ==>
                      summary.value.count + summary.value.remaining == summary.value.limit + summary.value.overage)
                && summary.value == Summary(store.usage[u.id].count, store.usage[u.id].limit, store.usage[u.id].overage,
                                            Remaining(store.usage[u.id]))
    {
      summary := None;
      if user in store.directory.customerOf {
        var u := UsageOf(store.usage, store.directory.customerOf[user]);
        if u.One? {
          var row := store.usage[u.id];
          summary := Some(Summary(row.count, row.limit, row.overage,
                                  if row.limit - row.count > 0 then row.limit - row.count else 0));
        }
      }
    }

    method OpenUsage(id: Id, customer: Id, limit: int) returns (ok: bool)
      modifies store
      ensures store.usage == AfterUsageEvent(old(store.usage), Opened(id, customer, limit))
      ensures ok == (id !in old(store.usage))
      ensures store.usage == if ok then old(store.usage)[id := Usage(customer, 0, limit, 0)] else old(store.usage)
    {
      ok := store.CreateUsage(id, Usage(customer, 0, limit, 0));
    }

    /** The usage part of a plan change: the entity gets the new limit, the stored row does not. */
    method ChangePlanLimit(customer: Id, limit: int)
      modifies store
      ensures store.State() == old(store.State())
      ensures store.usage == AfterUsageEvent(old(store.usage), PlanChanged(customer, limit))
    {
      var u := UsageOf(store.usage, customer);
      if u.One? {
        var entity := store.usage[u.id].(limit := limit);
        store.UpdateUsage(u.id, entity);
        assert store.usage == old(store.usage);
      }
    }
  }
}
