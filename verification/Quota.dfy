// Quota enforcement: the plan read from the subscription rows against the usage records.
module Quota {
  import opened Wrappers
  import Billing
  import UsageLedger

  datatype QuotaError = RequestLimitReached(limit: int)

  function Check(plan: Billing.PlanTier, usage: int): Result<(), QuotaError> {
    var limit := Billing.MonthlyRequestLimit(plan);
    if limit != -1 && usage >= limit then Err(RequestLimitReached(limit)) else Ok(())
  }

  class QuotaEnforcer {
    const billing: Billing.BillingService
    const usage: UsageLedger.UsageRepository

    constructor (billing: Billing.BillingService, usage: UsageLedger.UsageRepository)
      ensures this.billing == billing && this.usage == usage
    {
      this.billing, this.usage := billing, usage;
    }

    /** check_api_request is decided by the two logs alone: the billing events fix the plan,
        the usage increments fix the count, and a full month is refused, not one request later. */
    method CheckApiRequest(tenant: nat, period: string) returns (result: Result<(), QuotaError>)
      requires billing.Valid() && usage.Valid()
      ensures result == Check(Billing.LoggedPlan(billing.log, tenant),
                              UsageLedger.LoggedRequests(usage.log, tenant, period))
      ensures var used := UsageLedger.LoggedRequests(usage.log, tenant, period);
              result == match Billing.LoggedPlan(billing.log, tenant)
                        case Free => if used < 1_000 then Ok(()) else Err(RequestLimitReached(1_000))
                        case Pro => if used < 50_000 then Ok(()) else Err(RequestLimitReached(50_000))
                        case Business => if used < 500_000 then Ok(()) else Err(RequestLimitReached(500_000))
                        case Enterprise => Ok(())
    {
      hide Billing.Consistent;
      Billing.ConsistentStateFollowsTheLog(billing.View(), billing.log, tenant);
      var plan := Billing.EnforcedPlan(billing.rows, tenant);
      var limit := Billing.MonthlyRequestLimit(plan);
      if limit == -1 {
        return Ok(());
      }
      var used := usage.MonthlyRequests(tenant, period);
      if used >= limit {
        return Err(RequestLimitReached(limit));
      }
      return Ok(());
    }
  }
}
